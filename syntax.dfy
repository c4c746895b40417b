/** The semantic analyser (`src/syntax.rs`): it walks the parse tree once and
    builds the program model: the string-literal pool, the tables of
    functions and externs, one scope per function, and each function's
    statements. The per-node decisions are pure functions; the class
    `Syntax` applies them to its state step by step. */
module Syntax {

  import opened Common
  import opened Grammar
  import opened Types
  import opened Scope

  predicate IsMathOp(op: Rule)
  {
    op.AssignPlus? || op.AssignMinus? || op.AssignMulti? || op.AssignDiv? || op.AssignMod?
  }

  predicate IsLogicOp(op: Rule)
  {
    op.AssignAnd? || op.AssignOr?
  }

  /** `Syntax::check_can_assign`: whether operator `op` may be applied to a
      value of type `t`. */
  function CheckCanAssign(t: VarType, op: Rule): (r: Outcome)
    ensures r.Ok? || r.Err?
    ensures op.Assign? ==> r.Ok?
    ensures IsMathOp(op) ==> (r.Ok? <==> t == Int || t == Char)
    ensures IsMathOp(op) && !r.Ok? ==> r.message == "Cannot perform math on " + VarTypeName(t)
    ensures IsLogicOp(op) ==> (r.Ok? <==> t == Bool || t == Int || t == Char)
    ensures IsLogicOp(op) && !r.Ok? ==> r.message == "Cannot perform logic on " + VarTypeName(t)
    ensures !op.Assign? && !IsMathOp(op) && !IsLogicOp(op) ==>
              r == Err("Unknown assignment: " + RuleName(op))
  {
    if op.Assign? then Ok
    else if IsMathOp(op) then
      if t in VarTypesMath then Ok else Err("Cannot perform math on " + VarTypeName(t))
    else if IsLogicOp(op) then
      if t in VarTypesLogic then Ok else Err("Cannot perform logic on " + VarTypeName(t))
    else Err("Unknown assignment: " + RuleName(op))
  }

  // ---------------------------------------------------------------------
  // What the analyser builds

  /** A parameter as the analyser builds it, against a pool of `poolSize`
      literals: a literal carries its text, a string literal an id into the
      pool, and only literals carry ids. */
  ghost predicate WellFormedParam(p: Parameter, poolSize: nat)
  {
    && (p.id.Some? ==> p.isLiteral && p.id.value < poolSize)
    && (p.isLiteral ==> p.value.Some?)
    && (p.isLiteral && p.varType == String ==> p.id.Some?)
  }

  /** A statement as the analyser builds it: only calls and assignments,
      and an assignment whose value type suits its operator. */
  ghost predicate WellFormedStatement(s: Statement, poolSize: nat)
  {
    match s
    case Block(_) => false
    case Return(_) => false
    case FunctionCall(c) => forall p :: p in c.parameters ==> WellFormedParam(p, poolSize)
    case ExternFunctionCall(c) => forall p :: p in c.parameters ==> WellFormedParam(p, poolSize)
    case Assignment(_, op, p) => WellFormedParam(p, poolSize) && CheckCanAssign(p.varType, op).Ok?
  }

  /** A larger pool keeps statements well formed. */
  lemma StatementsGrow(ss: seq<Statement>, n: nat, m: nat)
    requires forall s :: s in ss ==> WellFormedStatement(s, n)
    requires n <= m
    ensures forall s :: s in ss ==> WellFormedStatement(s, m)
  {
  }

  lemma StatementsGrowAll(fs: map<string, Function>, n: nat, m: nat)
    requires forall name :: name in fs ==> forall s :: s in fs[name].code.statements ==> WellFormedStatement(s, n)
    requires n <= m
    ensures forall name :: name in fs ==> forall s :: s in fs[name].code.statements ==> WellFormedStatement(s, m)
  {
  }

  // ---------------------------------------------------------------------
  // Call arguments (`function_call`, src/syntax.rs:143-206)

  /** What one call argument becomes: a parameter and the literal it adds
      to the pool, if any; or the outcome that stops the call. */
  datatype ArgStep = Lowered(param: Parameter, interned: seq<string>) | Stopped(outcome: Outcome)

  /** The literals a list of parameters holds in the pool, in order. */
  function Interned(ps: seq<Parameter>): seq<string>
    decreases |ps|
  {
    if ps == [] then []
    else
      var p := ps[|ps| - 1];
      Interned(ps[..|ps| - 1]) + (if p.id.Some? && p.value.Some? then [p.value.value] else [])
  }

  /** One argument of a call, against the caller's own variables and a pool
      holding `poolSize` literals (`LowerArgMeaning` states what it does). */
  function LowerArg(arg: Node, vars: seq<Variable>, poolSize: nat): (r: ArgStep)
    ensures r.Lowered? ==> r.interned == Interned([r.param])
  {
    if |arg.children| == 0 then Stopped(Fatal(Unwrap))
    else
      var a := arg.children[0];
      if a.rule.Literal? then
        if |a.children| == 0 then Stopped(Fatal(Unwrap))
        else
          var lit := a.children[0];
          var t := FromRule(lit.rule);
          if t.None? then Stopped(Fatal("Unknown type"))
          else if t.value == Int then Lowered(Parameter("", Some(lit.text), None, Int, true), [])
          else if t.value == String then Lowered(Parameter("", Some(lit.text), Some(poolSize), String, true), [lit.text])
          else Stopped(Unsupported("literal argument of this type"))
      else if a.rule.Identifier? then
        var v := Lookup(vars, a.text);
        if v.None? then Stopped(Err("Unknown variable: " + a.text))
        else Lowered(Parameter(a.text, None, None, v.value.varType, false), [])
      else Stopped(Fatal("Unknown argument"))
  }

  /** A string literal takes the next id and is interned; an integer
      literal is kept as text; an identifier takes the type of the first
      variable of that name in the caller's scope, and an unknown name stops
      the call with "Unknown variable". Whatever is lowered is well formed
      against the pool that results. */
  lemma LowerArgMeaning(arg: Node, vars: seq<Variable>, poolSize: nat)
    ensures var r := LowerArg(arg, vars, poolSize);
            && (r.Stopped? ==> !r.outcome.Ok?)
            && (r.Lowered? ==> WellFormedParam(r.param, poolSize + |r.interned|))
            && (r.Lowered? && r.param.isLiteral && r.param.varType == String ==>
                  r.param.id == Some(poolSize) && r.interned == [r.param.value.value])
            && (r.Lowered? && r.param.isLiteral && r.param.varType != String ==>
                  r.param.varType == Int && r.param.id.None? && r.interned == [])
            && (r.Lowered? && !r.param.isLiteral ==>
                  && |arg.children| > 0 && arg.children[0].rule.Identifier?
                  && r.param.name == arg.children[0].text
                  && Lookup(vars, r.param.name).Some?
                  && r.param.varType == Lookup(vars, r.param.name).value.varType)
            && (|arg.children| > 0 && arg.children[0].rule.Identifier? ==>
                  (r.Stopped? <==> Lookup(vars, arg.children[0].text).None?) &&
                  (r.Stopped? ==> r.outcome == Err("Unknown variable: " + arg.children[0].text)))
            && (|arg.children| > 0 && arg.children[0].rule.Literal? && |arg.children[0].children| > 0 ==>
                  var lit := arg.children[0].children[0];
                  && (FromRule(lit.rule) == Some(String) ==>
                        r == Lowered(Parameter("", Some(lit.text), Some(poolSize), String, true), [lit.text]))
                  && (FromRule(lit.rule) == Some(Int) ==>
                        r == Lowered(Parameter("", Some(lit.text), None, Int, true), []))
                  && (FromRule(lit.rule) == Some(Char) ==> r.Stopped? && r.outcome.Unsupported?)
                  && (FromRule(lit.rule).None? ==> r.Stopped? && r.outcome.Fatal?))
  {
  }

  /** The arguments of a call, lowered left to right, and the pool after
      them; lowering stops at the first argument that fails. */
  datatype ArgsResult = ArgsResult(params: seq<Parameter>, pool: seq<string>, outcome: Outcome)

  function LowerArgs(args: seq<Node>, vars: seq<Variable>, pool: seq<string>): (r: ArgsResult)
    ensures r.pool == pool + Interned(r.params)
    ensures r.outcome.Ok? ==> |r.params| == |args|
    ensures !r.outcome.Ok? ==> |r.params| < |args|
    decreases |args|
  {
    if args == [] then ArgsResult([], pool, Ok)
    else
      var prev := LowerArgs(args[..|args| - 1], vars, pool);
      if !prev.outcome.Ok? then prev
      else match LowerArg(args[|args| - 1], vars, |prev.pool|)
        case Stopped(o) => prev.(outcome := o)
        case Lowered(p, interned) =>
          assert (prev.params + [p])[..|prev.params|] == prev.params;
          ArgsResult(prev.params + [p], prev.pool + interned, Ok)
  }

  /** One more argument keeps the parameters and pool already built, and
      adds at most one parameter: the last argument's, lowered against the
      pool left by the ones before it. */
  lemma LowerArgsGrows(args: seq<Node>, vars: seq<Variable>, pool: seq<string>)
    requires args != []
    ensures var prev := LowerArgs(args[..|args| - 1], vars, pool);
            var r := LowerArgs(args, vars, pool);
            var step := LowerArg(args[|args| - 1], vars, |prev.pool|);
            && |prev.params| <= |r.params| <= |prev.params| + 1
            && r.params[..|prev.params|] == prev.params
            && prev.pool <= r.pool
            && (|prev.params| < |r.params| ==>
                  && prev.outcome.Ok? && |prev.params| == |args| - 1 && step.Lowered?
                  && r.params == prev.params + [step.param]
                  && r.pool == prev.pool + step.interned)
  {
    var prev := LowerArgs(args[..|args| - 1], vars, pool);
    if prev.outcome.Ok? {
      var step := LowerArg(args[|args| - 1], vars, |prev.pool|);
      if step.Lowered? {
        assert (prev.params + [step.param])[..|prev.params|] == prev.params;
      }
    }
  }

  /** Lowering one more argument, after all the earlier ones were lowered. */
  lemma LowerArgsSnoc(args: seq<Node>, vars: seq<Variable>, pool: seq<string>, i: nat, step: ArgStep)
    requires i < |args|
    requires LowerArgs(args[..i], vars, pool).outcome.Ok?
    requires step == LowerArg(args[i], vars, |LowerArgs(args[..i], vars, pool).pool|)
    ensures var prev := LowerArgs(args[..i], vars, pool);
            LowerArgs(args[..i + 1], vars, pool) ==
              if step.Stopped? then prev.(outcome := step.outcome)
              else ArgsResult(prev.params + [step.param], prev.pool + step.interned, Ok)
  {
    assert args[..i + 1][..i] == args[..i];
    assert args[..i + 1][i] == args[i];
  }

  /** When lowering stops, it stops at the first argument that fails, with
      that argument's outcome. */
  lemma {:induction false} LowerArgsFailure(args: seq<Node>, vars: seq<Variable>, pool: seq<string>)
    requires !LowerArgs(args, vars, pool).outcome.Ok?
    ensures var r := LowerArgs(args, vars, pool);
            LowerArg(args[|r.params|], vars, |r.pool|) == Stopped(r.outcome)
    decreases |args|
  {
    var prev := LowerArgs(args[..|args| - 1], vars, pool);
    if !prev.outcome.Ok? {
      LowerArgsFailure(args[..|args| - 1], vars, pool);
    }
  }

  /** Once lowering has stopped, later arguments change nothing. */
  lemma {:induction false} LowerArgsStopped(args: seq<Node>, vars: seq<Variable>, pool: seq<string>, i: nat)
    requires i <= |args|
    requires !LowerArgs(args[..i], vars, pool).outcome.Ok?
    ensures LowerArgs(args, vars, pool) == LowerArgs(args[..i], vars, pool)
    decreases |args| - i
  {
    if i < |args| {
      assert args[..|args| - 1][..i] == args[..i];
      LowerArgsStopped(args[..|args| - 1], vars, pool, i);
    } else {
      assert args[..i] == args;
    }
  }

  /** Every interned literal is found in the pool at the id its parameter
      carries: the pool's old length plus the literals interned before it. */
  lemma {:induction false} LowerArgsInterning(args: seq<Node>, vars: seq<Variable>, pool: seq<string>, i: nat)
    requires i < |LowerArgs(args, vars, pool).params|
    requires LowerArgs(args, vars, pool).params[i].id.Some?
    ensures var r := LowerArgs(args, vars, pool);
            && r.params[i].id.value == |pool| + |Interned(r.params[..i])|
            && r.params[i].value.Some?
            && r.params[i].id.value < |r.pool|
            && r.pool[r.params[i].id.value] == r.params[i].value.value
    decreases |args|
  {
    var init := args[..|args| - 1];
    var prev := LowerArgs(init, vars, pool);
    var r := LowerArgs(args, vars, pool);
    LowerArgsGrows(args, vars, pool);
    if i < |prev.params| {
      LowerArgsInterning(init, vars, pool, i);
      assert r.params[..i] == prev.params[..i];
      assert r.params[i] == prev.params[i];
    } else {
      LowerArgMeaning(args[i], vars, |prev.pool|);
      assert r.params[..i] == prev.params;
    }
  }

  /** A parameter already lowered from the earlier arguments stays in place. */
  lemma LowerArgsKeepsParam(args: seq<Node>, vars: seq<Variable>, pool: seq<string>, i: nat)
    requires args != []
    requires i < |LowerArgs(args[..|args| - 1], vars, pool).params|
    ensures i < |LowerArgs(args, vars, pool).params|
    ensures LowerArgs(args, vars, pool).params[i] == LowerArgs(args[..|args| - 1], vars, pool).params[i]
  {
    var prev := LowerArgs(args[..|args| - 1], vars, pool);
    var r := LowerArgs(args, vars, pool);
    LowerArgsGrows(args, vars, pool);
    assert r.params[..|prev.params|][i] == r.params[i];
  }

  /** A parameter added by the last argument is that argument, lowered
      against the pool left by the earlier ones. */
  lemma LowerArgsLastParam(args: seq<Node>, vars: seq<Variable>, pool: seq<string>, i: nat)
    requires args != []
    requires |LowerArgs(args[..|args| - 1], vars, pool).params| <= i < |LowerArgs(args, vars, pool).params|
    ensures i == |args| - 1
    ensures var prev := LowerArgs(args[..|args| - 1], vars, pool);
            var step := LowerArg(args[i], vars, |prev.pool|);
            step.Lowered? && LowerArgs(args, vars, pool).params[i] == step.param
  {
    var prev := LowerArgs(args[..|args| - 1], vars, pool);
    var r := LowerArgs(args, vars, pool);
    LowerArgsGrows(args, vars, pool);
    assert i == |prev.params|;
    assert (prev.params + [LowerArg(args[|args| - 1], vars, |prev.pool|).param])[i]
           == LowerArg(args[|args| - 1], vars, |prev.pool|).param;
  }

  /** A parameter that is not a literal names a variable of the caller's
      scope, and carries the type of the first variable of that name. */
  lemma {:induction false} LowerArgsIdentifiers(args: seq<Node>, vars: seq<Variable>, pool: seq<string>, i: nat)
    requires i < |LowerArgs(args, vars, pool).params|
    requires !LowerArgs(args, vars, pool).params[i].isLiteral
    ensures var p := LowerArgs(args, vars, pool).params[i];
            && |args[i].children| > 0 && args[i].children[0].rule.Identifier?
            && p.name == args[i].children[0].text
            && Lookup(vars, p.name).Some?
            && p.varType == Lookup(vars, p.name).value.varType
    decreases |args|
  {
    assert args != [];
    var init := args[..|args| - 1];
    var prev := LowerArgs(init, vars, pool);
    if i < |prev.params| {
      LowerArgsKeepsParam(args, vars, pool, i);
      LowerArgsIdentifiers(init, vars, pool, i);
      assert init[i] == args[i];
    } else {
      LowerArgsLastParam(args, vars, pool, i);
      LowerArgMeaning(args[i], vars, |prev.pool|);
    }
  }

  /** `Interned` of a list, cut at position `i`. */
  lemma {:induction false} InternedSplit(ps: seq<Parameter>, i: nat)
    requires i < |ps|
    ensures Interned(ps) == Interned(ps[..i]) + Interned([ps[i]]) + Interned(ps[i + 1..])
    decreases |ps|
  {
    if i == |ps| - 1 {
      assert ps[..i] == ps[..|ps| - 1];
      assert Interned([ps[i]]) == [] + (if ps[i].id.Some? && ps[i].value.Some? then [ps[i].value.value] else []);
      assert Interned(ps[i + 1..]) == [];
    } else {
      var init := ps[..|ps| - 1];
      InternedSplit(init, i);
      assert init[..i] == ps[..i];
      assert init[i] == ps[i];
      assert ps[i + 1..][..|ps[i + 1..]| - 1] == init[i + 1..];
    }
  }

  /** Ids handed out to the literals of one call increase strictly. */
  lemma LowerArgsIdsIncrease(args: seq<Node>, vars: seq<Variable>, pool: seq<string>, i: nat, j: nat)
    requires i < j < |LowerArgs(args, vars, pool).params|
    requires LowerArgs(args, vars, pool).params[i].id.Some?
    requires LowerArgs(args, vars, pool).params[j].id.Some?
    ensures LowerArgs(args, vars, pool).params[i].id.value < LowerArgs(args, vars, pool).params[j].id.value
  {
    var r := LowerArgs(args, vars, pool);
    LowerArgsInterning(args, vars, pool, i);
    LowerArgsInterning(args, vars, pool, j);
    InternedSplit(r.params[..j], i);
    assert r.params[..j][..i] == r.params[..i];
    assert r.params[..j][i] == r.params[i];
  }

  /** The parameters lowered from a call's arguments are well formed
      against the pool that results. */
  lemma {:induction false} LowerArgsWellFormed(args: seq<Node>, vars: seq<Variable>, pool: seq<string>)
    ensures var r := LowerArgs(args, vars, pool);
            forall p :: p in r.params ==> WellFormedParam(p, |r.pool|)
    decreases |args|
  {
    if args != [] {
      var init := args[..|args| - 1];
      var prev := LowerArgs(init, vars, pool);
      var r := LowerArgs(args, vars, pool);
      LowerArgsWellFormed(init, vars, pool);
      LowerArgsGrows(args, vars, pool);
      if |prev.params| < |r.params| {
        LowerArgMeaning(args[|args| - 1], vars, |prev.pool|);
      }
      forall p | p in r.params ensures WellFormedParam(p, |r.pool|) {
        if p in prev.params {
          assert WellFormedParam(p, |prev.pool|);
        }
      }
    }
  }

  /** The argument nodes of a call: the children of its argument list. */
  function CallArguments(children: seq<Node>): seq<Node>
  {
    match Expect(children, 1, Rule.ArgumentList)
    case Some(list) => list.children
    case None => []
  }

  // ---------------------------------------------------------------------
  // Assignments (`declaration_assignment`, `assignment`, `assignment_inner`)

  /** What an assignment step does: the statement it appends (if any), the
      literal it interns (if any), and how it ends. */
  datatype AssignResult = AssignResult(stmt: Option<Statement>, interned: seq<string>, outcome: Outcome)

  /** `assignment_inner`: the right-hand side `val` of an assignment to the
      variable `target` with operator `op`, against the scope's variables
      and a pool of `poolSize` literals. */
  function AssignValue(target: string, op: Rule, val: Node, vars: seq<Variable>, poolSize: nat): (r: AssignResult)
    ensures r.stmt.Some? <==> r.outcome.Ok?
    ensures !r.outcome.Ok? ==> r.interned == []
    ensures r.outcome.Ok? ==>
              && val.rule.Literal? && |val.children| > 0
              && r.stmt.value.Assignment? && r.stmt.value.target == target && r.stmt.value.op == op
              && r.stmt.value.value.isLiteral
              && r.stmt.value.value.id == Some(poolSize)
              && r.interned == [val.children[0].text]
              && r.stmt.value.value.value == Some(val.children[0].text)
              && FromRule(val.children[0].rule).Some?
              && r.stmt.value.value.varType == FromRule(val.children[0].rule).value
              && WellFormedStatement(r.stmt.value, poolSize + 1)
    ensures val.rule.Literal? && |val.children| > 0 && FromRule(val.children[0].rule).Some? ==>
              (r.outcome.Ok? <==> CheckCanAssign(FromRule(val.children[0].rule).value, op).Ok?)
    ensures val.rule.Literal? && |val.children| > 0 && FromRule(val.children[0].rule).Some? &&
            !CheckCanAssign(FromRule(val.children[0].rule).value, op).Ok? ==>
              r.outcome == CheckCanAssign(FromRule(val.children[0].rule).value, op)
    ensures val.rule.Identifier? ==> !r.outcome.Ok? && !r.outcome.Fatal?
    ensures val.rule.Identifier? && Lookup(vars, val.text).Some? ==>
              r.outcome == (if CheckCanAssign(Lookup(vars, val.text).value.varType, op).Ok?
                            then Unsupported("identifier on the right-hand side of an assignment")
                            else CheckCanAssign(Lookup(vars, val.text).value.varType, op))
    ensures val.rule.Identifier? && Lookup(vars, val.text).None? ==> r.outcome == Err("Unknown variable: " + val.text)
  {
    if val.rule.Literal? then
      if |val.children| == 0 then AssignResult(None, [], Fatal(Unwrap))
      else
        var lit := val.children[0];
        var t := FromRule(lit.rule);
        if t.None? then AssignResult(None, [], Fatal("Unknown type"))
        else
          var check := CheckCanAssign(t.value, op);
          if !check.Ok? then AssignResult(None, [], check)
          else
            var p := Parameter("", Some(lit.text), Some(poolSize), t.value, true);
            AssignResult(Some(Statement.Assignment(target, op, p)), [lit.text], Ok)
    else if val.rule.Identifier? then
      var v := Lookup(vars, val.text);
      if v.None? then AssignResult(None, [], Err("Unknown variable: " + val.text))
      else
        var check := CheckCanAssign(v.value.varType, op);
        if !check.Ok? then AssignResult(None, [], check)
        else AssignResult(None, [], Unsupported("identifier on the right-hand side of an assignment"))
    else AssignResult(None, [], Fatal("Unknown value"))
  }

  /** `declaration_assignment`: `rest` holds the nodes after the declared
      name (the operator, then the value) of a declaration of `v`. */
  function DeclarationAssignmentSpec(rest: seq<Node>, v: Variable, vars: seq<Variable>, poolSize: nat): (r: AssignResult)
    ensures r.stmt.Some? <==> r.outcome.Ok?
    ensures !r.outcome.Ok? ==> r.interned == []
    ensures |rest| > 0 && !CheckCanAssign(v.varType, rest[0].rule).Ok? ==>
              r.outcome == CheckCanAssign(v.varType, rest[0].rule)
    ensures r.outcome.Ok? ==> r.stmt.value.Assignment? && r.stmt.value.target == v.name && WellFormedStatement(r.stmt.value, poolSize + 1)
    ensures r.outcome.Ok? ==>
              && |rest| >= 2 && CheckCanAssign(v.varType, rest[0].rule).Ok?
              && r == AssignValue(v.name, rest[0].rule, rest[1], vars, poolSize)
  {
    if |rest| == 0 then AssignResult(None, [], Fatal(Unwrap))
    else
      var op := rest[0].rule;
      var check := CheckCanAssign(v.varType, op);
      if !check.Ok? then AssignResult(None, [], check)
      else if |rest| < 2 then AssignResult(None, [], Fatal(Unwrap))
      else AssignValue(v.name, op, rest[1], vars, poolSize)
  }

  /** `assignment`: `name op value` where `name` must already be declared in
      the scope, and `op` must suit both its type and the value's. */
  function AssignmentSpec(children: seq<Node>, vars: seq<Variable>, poolSize: nat): (r: AssignResult)
    ensures r.stmt.Some? <==> r.outcome.Ok?
    ensures !r.outcome.Ok? ==> r.interned == []
    ensures |children| > 0 && Lookup(vars, children[0].text).None? ==>
              r.outcome == Err("Unknown variable: " + children[0].text)
    ensures |children| >= 2 && |children[1].children| > 0 && Lookup(vars, children[0].text).Some? &&
            !CheckCanAssign(Lookup(vars, children[0].text).value.varType, children[1].children[0].rule).Ok? ==>
              r.outcome == CheckCanAssign(Lookup(vars, children[0].text).value.varType, children[1].children[0].rule)
    ensures r.outcome.Ok? ==>
              && |children| >= 3 && |children[1].children| > 0
              && r == AssignValue(children[0].text, children[1].children[0].rule, children[2], vars, poolSize)
    ensures r.outcome.Ok? ==>
              && |children| > 0
              && Lookup(vars, children[0].text).Some?
              && r.stmt.value.Assignment?
              && r.stmt.value.target == children[0].text
              && CheckCanAssign(Lookup(vars, children[0].text).value.varType, r.stmt.value.op).Ok?
              && WellFormedStatement(r.stmt.value, poolSize + 1)
  {
    if |children| == 0 then AssignResult(None, [], Fatal(Unwrap))
    else match Lookup(vars, children[0].text)
      case None => AssignResult(None, [], Err("Unknown variable: " + children[0].text))
      case Some(v) =>
        if |children| < 2 || |children[1].children| == 0 then AssignResult(None, [], Fatal(Unwrap))
        else
          var op := children[1].children[0].rule;
          var check := CheckCanAssign(v.varType, op);
          if !check.Ok? then AssignResult(None, [], check)
          else if |children| < 3 then AssignResult(None, [], Fatal(Unwrap))
          else AssignValue(v.name, op, children[2], vars, poolSize)
  }

  /** The pool, the block and the outcome after an assignment step `r`. */
  ghost predicate Applied(r: AssignResult, pool: seq<string>, pool': seq<string>, code: Block, code': Block, out: Outcome)
  {
    && pool' == pool + r.interned
    && out == r.outcome
    && code' == (if r.stmt.Some? then code.(statements := code.statements + [r.stmt.value]) else code)
  }

  // ---------------------------------------------------------------------
  // Function and extern headers

  /** `parameter_list` of a function: each parameter node is a type keyword
      then a name; the names key a map, so a later parameter of the same
      name replaces an earlier one and declaration order is lost. */
  function ParamMap(nodes: seq<Node>): (r: Result<map<string, VarType>>)
    ensures r.Failure? ==> r.outcome.Fatal?
    ensures r.Success? <==>
              forall i :: 0 <= i < |nodes| ==> |nodes[i].children| >= 2 && FromStr(nodes[i].children[0].text).Some?
    decreases |nodes|
  {
    if nodes == [] then Success(map[])
    else match ParamMap(nodes[..|nodes| - 1])
      case Failure(o) => Failure(o)
      case Success(m) =>
        var p := nodes[|nodes| - 1];
        if |p.children| < 2 then Failure(Fatal(Unwrap))
        else match FromStr(p.children[0].text)
          case None => Failure(Fatal("Unknown type: " + p.children[0].text))
          case Some(t) => Success(m[p.children[1].text := t])
  }

  /** The type recorded for a parameter name is the one declared by the
      last parameter of that name: later parameters replace earlier ones. */
  lemma {:induction false} ParamMapLastWins(nodes: seq<Node>, i: nat)
    requires ParamMap(nodes).Success?
    requires i < |nodes|
    requires |nodes[i].children| >= 2
    requires forall j :: i < j < |nodes| && |nodes[j].children| >= 2 ==> nodes[j].children[1].text != nodes[i].children[1].text
    ensures nodes[i].children[1].text in ParamMap(nodes).value
    ensures FromStr(nodes[i].children[0].text) == Some(ParamMap(nodes).value[nodes[i].children[1].text])
    decreases |nodes|
  {
    if i < |nodes| - 1 {
      var init := nodes[..|nodes| - 1];
      assert init[i] == nodes[i];
      ParamMapLastWins(init, i);
    }
  }

  /** `extern_parameter_list`: the declared parameter types, in order. */
  function ExternParamTypes(nodes: seq<Node>): (r: Result<seq<VarType>>)
    ensures r.Failure? ==> r.outcome.Fatal?
    ensures r.Success? ==> |r.value| == |nodes| && forall i :: 0 <= i < |nodes| ==> FromStr(nodes[i].text) == Some(r.value[i])
    ensures r.Success? <==> forall i :: 0 <= i < |nodes| ==> FromStr(nodes[i].text).Some?
    decreases |nodes|
  {
    if nodes == [] then Success([])
    else match ExternParamTypes(nodes[..|nodes| - 1])
      case Failure(o) => Failure(o)
      case Success(ts) =>
        match FromStr(nodes[|nodes| - 1].text)
        case None => Failure(Fatal("Unknown type: " + nodes[|nodes| - 1].text))
        case Some(t) => Success(ts + [t])
  }

  /** The optional `return_type` child at `pos`; `Void` when absent. */
  function ReturnTypeAt(children: seq<Node>, pos: nat): (r: Result<VarType>)
    ensures Expect(children, pos, Rule.ReturnType).None? ==> r == Success(Void)
    ensures Expect(children, pos, Rule.ReturnType).Some? ==>
              (r.Success? <==> |children[pos].children| > 0 && FromStr(children[pos].children[0].text).Some?)
    ensures Expect(children, pos, Rule.ReturnType).Some? && r.Success? ==>
              r.value == FromStr(children[pos].children[0].text).value
    ensures r.Failure? ==> r.outcome.Fatal?
  {
    match Expect(children, pos, Rule.ReturnType)
    case None => Success(Void)
    case Some(rt) =>
      if |rt.children| == 0 then Failure(Fatal(Unwrap))
      else match FromStr(rt.children[0].text)
        case None => Failure(Fatal("Unknown type: " + rt.children[0].text))
        case Some(t) => Success(t)
  }

  /** A function's header: name, parameters, return type, and the position
      of the child that must be its body. */
  datatype Header = Header(name: string, parameters: map<string, VarType>, returnType: VarType, body: nat)

  function FunctionHeader(children: seq<Node>): (r: Result<Header>)
    ensures r.Failure? ==> r.outcome.Fatal?
    ensures r.Success? ==> |children| > 0 && r.value.name == children[0].text && 1 <= r.value.body <= 3
    ensures |children| > 0 ==>
              var listed := Expect(children, 1, Rule.ParameterList).Some?;
              var pos: nat := if listed then 2 else 1;
              && (listed && ParamMap(children[1].children).Failure? ==> r.Failure?)
              && (ReturnTypeAt(children, pos).Failure? ==> r.Failure?)
              && ((!listed || ParamMap(children[1].children).Success?) && ReturnTypeAt(children, pos).Success? ==> r.Success?)
              && (r.Success? ==>
                    && r.value.parameters == (if listed then ParamMap(children[1].children).value else map[])
                    && r.value.returnType == ReturnTypeAt(children, pos).value
                    && r.value.body == (if Expect(children, pos, Rule.ReturnType).Some? then pos + 1 else pos))
  {
    if |children| == 0 then Failure(Fatal(Unwrap))
    else
      var hasParams := Expect(children, 1, Rule.ParameterList).Some?;
      var params := if hasParams then ParamMap(children[1].children) else Success(map[]);
      var pos: nat := if hasParams then 2 else 1;
      match params
      case Failure(o) => Failure(o)
      case Success(ps) =>
        match ReturnTypeAt(children, pos)
        case Failure(o) => Failure(o)
        case Success(rt) =>
          var body := if Expect(children, pos, Rule.ReturnType).Some? then pos + 1 else pos;
          Success(Header(children[0].text, ps, rt, body))
  }

  /** What `function_call` does to the pool, the block and the outcome,
      given the caller's variables and the two tables. */
  ghost predicate CallApplied(pair: Node, vars: seq<Variable>, externs: map<string, ExternFunction>,
                              functions: map<string, Function>, pool: seq<string>, pool': seq<string>,
                              code: Block, code': Block, out: Outcome)
  {
    && (|pair.children| == 0 ==> out.Fatal? && code' == code && pool' == pool)
    && (|pair.children| > 0 ==>
          var name := pair.children[0].text;
          var r := LowerArgs(CallArguments(pair.children), vars, pool);
          && pool' == r.pool
          && (!r.outcome.Ok? ==> out == r.outcome && code' == code)
          && (r.outcome.Ok? && name in externs ==>
                out.Ok? && code' == code.(statements := code.statements + [Statement.ExternFunctionCall(FnCall(name, r.params))]))
          && (r.outcome.Ok? && name !in externs && name in functions ==>
                out.Ok? && code' == code.(statements := code.statements + [Statement.FunctionCall(FnCall(name, r.params))]))
          && (r.outcome.Ok? && name !in externs && name !in functions ==>
                out == Err("Unknown function: " + name) && code' == code))
  }

  /** What `declaration` does to the pool, the block, the scope and the
      outcome. */
  ghost predicate DeclarationApplied(pair: Node, vars: VarTree, pool: seq<string>, pool': seq<string>,
                                     code: Block, code': Block, vars': VarTree, out: Outcome)
  {
    && (|pair.children| < 2 || FromRule(pair.children[0].rule).None? ==>
          out.Fatal? && code' == code && vars' == vars && pool' == pool)
    && (|pair.children| >= 2 && FromRule(pair.children[0].rule).Some? ==>
          var v := Variable(pair.children[1].text, FromRule(pair.children[0].rule).value, None);
          && vars' == vars.(variables := vars.variables + [v])
          && (|pair.children| == 2 ==> out.Ok? && code' == code && pool' == pool)
          && (|pair.children| > 2 ==>
                Applied(DeclarationAssignmentSpec(pair.children[2..], v, vars'.variables, |pool|),
                        pool, pool', code, code', out)))
  }

  /** What `parse_statement` does to the pool, the block, the scope and the
      outcome: a node that is not a statement panics; a function call, a
      declaration and an assignment are handled by their own steps; any
      other statement is not supported. */
  ghost predicate StatementApplied(pair: Node, vars: VarTree, externs: map<string, ExternFunction>,
                                   functions: map<string, Function>, pool: seq<string>, pool': seq<string>,
                                   code: Block, code': Block, vars': VarTree, out: Outcome)
  {
    && (!pair.rule.Statement? || |pair.children| == 0 ==>
          out.Fatal? && code' == code && vars' == vars && pool' == pool)
    && (pair.rule.Statement? && |pair.children| > 0 ==>
          var inner := pair.children[0];
          && (inner.rule.FunctionCall? ==>
                vars' == vars && CallApplied(inner, vars.variables, externs, functions, pool, pool', code, code', out))
          && (inner.rule.Declaration? ==>
                DeclarationApplied(inner, vars, pool, pool', code, code', vars', out))
          && (inner.rule.Assignment? ==>
                vars' == vars && Applied(AssignmentSpec(inner.children, vars.variables, |pool|), pool, pool', code, code', out))
          && (!inner.rule.FunctionCall? && !inner.rule.Declaration? && !inner.rule.Assignment? ==>
                out.Unsupported? && code' == code && vars' == vars && pool' == pool))
  }

  /** The first `|outs|` statements of `body`, run one after the other:
      before statement j the block, scope and pool are `codes[j]`,
      `scopes[j]` and `pools[j]`, and `outs[j]` is its outcome. */
  ghost predicate Trace(body: seq<Node>, externs: map<string, ExternFunction>, functions: map<string, Function>,
                        codes: seq<Block>, scopes: seq<VarTree>, pools: seq<seq<string>>, outs: seq<Outcome>)
  {
    && |outs| <= |body|
    && |codes| == |outs| + 1 && |scopes| == |outs| + 1 && |pools| == |outs| + 1
    && forall j :: 0 <= j < |outs| ==>
         StatementApplied(body[j], scopes[j], externs, functions, pools[j], pools[j + 1],
                          codes[j], codes[j + 1], scopes[j + 1], outs[j])
  }

  /** One more statement extends a trace. */
  lemma TraceSnoc(body: seq<Node>, externs: map<string, ExternFunction>, functions: map<string, Function>,
                  codes: seq<Block>, scopes: seq<VarTree>, pools: seq<seq<string>>, outs: seq<Outcome>,
                  code': Block, vars': VarTree, pool': seq<string>, out: Outcome)
    requires Trace(body, externs, functions, codes, scopes, pools, outs) && |outs| < |body|
    requires StatementApplied(body[|outs|], scopes[|outs|], externs, functions, pools[|outs|], pool',
                              codes[|outs|], code', vars', out)
    ensures Trace(body, externs, functions, codes + [code'], scopes + [vars'], pools + [pool'], outs + [out])
  {
  }

  /** A whole run of the statement loop of `parse_function` over `body`:
      every statement but the last run succeeded, the loop stops at the
      first failure, and `out` is the last outcome (Ok when the body is
      empty). */
  ghost predicate BodyRun(body: seq<Node>, externs: map<string, ExternFunction>, functions: map<string, Function>,
                          codes: seq<Block>, scopes: seq<VarTree>, pools: seq<seq<string>>, outs: seq<Outcome>,
                          out: Outcome)
  {
    && Trace(body, externs, functions, codes, scopes, pools, outs)
    && (forall j :: 0 <= j < |outs| - 1 ==> outs[j].Ok?)
    && out == (if outs == [] then Ok else outs[|outs| - 1])
    && (out.Ok? ==> |outs| == |body|)
  }

  // ---------------------------------------------------------------------
  // The analyser's state

  class Syntax {
    const content: Node
    var externs: map<string, ExternFunction>
    var functions: map<string, Function>
    /** The root scope; its children are the per-function scopes by id. */
    var variables: VarTree
    var strings: seq<string>
    var nextVartree: nat

    /** What every step keeps: each function is stored under its own name
        with a scope registered under its id; ids are distinct and below
        the counter; per-function scopes have no child scopes; externs are
        stored under their own name; every statement is well formed against
        the pool. */
    ghost predicate Valid()
      reads this
    {
      && (forall name :: name in functions ==>
            && functions[name].name == name
            && functions[name].code.id == functions[name].id
            && functions[name].id in variables.children
            && (forall s :: s in functions[name].code.statements ==> WellFormedStatement(s, |strings|)))
      && (forall n1, n2 :: n1 in functions && n2 in functions && n1 != n2 ==> functions[n1].id != functions[n2].id)
      && (forall id :: id in variables.children ==> id < nextVartree && variables.children[id].children == map[])
      && (forall name :: name in externs ==> externs[name].name == name)
    }

    /** `Syntax::new`. */
    constructor (content: Node)
      ensures this.content == content
      ensures externs == map[] && functions == map[] && strings == [] && nextVartree == 0
      ensures variables == VarTree(None, [], map[], 0)
      ensures Valid()
    {
      this.content := content;
      externs := map[];
      functions := map[];
      strings := [];
      variables := VarTree(None, [], map[], 0);
      nextVartree := 0;
    }

    /** `gen_id`: hands out the counter and advances it by one. */
    method GenId() returns (id: nat)
      modifies this`nextVartree
      ensures id == old(nextVartree)
      ensures nextVartree == old(nextVartree) + 1
    {
      id := nextVartree;
      nextVartree := nextVartree + 1;
    }

    /** `analyze`: every top-level node in turn, stopping at the first
        failure. */
    method Analyze() returns (out: Outcome)
      requires Valid()
      modifies this
      ensures Valid()
      ensures old(strings) <= strings
      ensures nextVartree >= old(nextVartree)
    {
      var i := 0;
      while i < |content.children|
        invariant 0 <= i <= |content.children|
        invariant Valid()
        invariant old(strings) <= strings
        invariant nextVartree >= old(nextVartree)
      {
        out := Parse(content.children[i]);
        if !out.Ok? {
          return;
        }
        i := i + 1;
      }
      out := Ok;
    }

    /** `parse`: dispatch on a top-level node's rule. */
    method Parse(pair: Node) returns (out: Outcome)
      requires Valid()
      modifies this`externs, this`functions, this`variables, this`strings, this`nextVartree
      ensures Valid()
      ensures old(strings) <= strings
      ensures nextVartree >= old(nextVartree)
      ensures pair.rule.Eoi? ==> out.Ok? && externs == old(externs) && functions == old(functions)
      ensures pair.rule.Declaration? ==> out.Unsupported?
      ensures !pair.rule.ExternFunction? && !pair.rule.Function? && !pair.rule.Eoi? ==> out.Unsupported?
      ensures !pair.rule.Function? ==> functions == old(functions) && variables == old(variables)
      ensures pair.rule.ExternFunction? ==>
                && (ExternHeader(pair.children).Failure? ==> out == ExternHeader(pair.children).outcome && externs == old(externs))
                && (ExternHeader(pair.children).Success? ==>
                      out.Ok? && externs == old(externs)[ExternHeader(pair.children).value.name := ExternHeader(pair.children).value])
      ensures pair.rule.Function? ==> externs == old(externs)
      ensures pair.rule.Function? && FunctionHeader(pair.children).Failure? ==>
                out == FunctionHeader(pair.children).outcome && nextVartree == old(nextVartree) && strings == old(strings)
      ensures pair.rule.Function? && !out.Ok? ==> functions == old(functions) && variables == old(variables)
      ensures pair.rule.Function? && out.Ok? ==>
                var h := FunctionHeader(pair.children).value;
                && FunctionHeader(pair.children).Success?
                && h.name in functions
                && functions == old(functions)[h.name := functions[h.name]]
                && functions[h.name].id == old(nextVartree)
                && old(nextVartree) in variables.children
    {
      match pair.rule {
        case ExternFunction =>
          out := ParseExternFunction(pair);
        case Function =>
          ghost var codes, scopes, pools, outs;
          out, codes, scopes, pools, outs := ParseFunction(pair);
        case Declaration =>
          out := Unsupported("top-level declaration");
        case Eoi =>
          out := Ok;
        case _ =>
          out := Unsupported("top-level item");
      }
    }

    /** `parse_function`: reads the header, mints an id, analyses the body
        into a fresh scope, then registers the scope under the id and the
        function under its name (replacing any function of that name). */
    method ParseFunction(pair: Node)
      returns (out: Outcome,
               ghost codes: seq<Block>, ghost scopes: seq<VarTree>, ghost pools: seq<seq<string>>, ghost outs: seq<Outcome>)
      requires Valid()
      modifies this`functions, this`variables, this`strings, this`nextVartree
      ensures Valid()
      ensures old(strings) <= strings
      ensures FunctionHeader(pair.children).Failure? ==>
                && out == FunctionHeader(pair.children).outcome
                && nextVartree == old(nextVartree) && strings == old(strings)
      ensures FunctionHeader(pair.children).Success? ==> nextVartree == old(nextVartree) + 1
      ensures FunctionHeader(pair.children).Success? &&
              Expect(pair.children, FunctionHeader(pair.children).value.body, Rule.Block).None? ==>
                out == Err("No code block for function: " + pair.children[0].text)
      ensures !out.Ok? ==> functions == old(functions) && variables == old(variables)
      ensures out.Ok? ==>
                var h := FunctionHeader(pair.children).value;
                var id := old(nextVartree);
                && FunctionHeader(pair.children).Success?
                && Expect(pair.children, h.body, Rule.Block).Some?
                && id !in old(variables.children)
                && h.name in functions
                && functions == old(functions)[h.name := functions[h.name]]
                && functions[h.name] == Types.Function(h.name, id, h.parameters, h.returnType, functions[h.name].code)
                && |functions[h.name].code.statements| <= |pair.children[h.body].children|
                && id in variables.children
                && variables == old(variables).(children := old(variables.children)[id := variables.children[id]])
                && variables.children[id].father == Some(0)
                && variables.children[id].stack == 0
      ensures FunctionHeader(pair.children).Success? &&
              Expect(pair.children, FunctionHeader(pair.children).value.body, Rule.Block).Some? ==>
                var h := FunctionHeader(pair.children).value;
                var id := old(nextVartree);
                && BodyRun(pair.children[h.body].children, externs, old(functions), codes, scopes, pools, outs, out)
                && codes[0] == Types.Block.Block(id, []) && scopes[0] == VarTree(Some(0), [], map[], 0)
                && pools[0] == old(strings) && strings == pools[|outs|]
                && (out.Ok? ==> functions[h.name].code == codes[|outs|] && variables.children[id] == scopes[|outs|])
    {
      var header := ReadHeader(pair.children);
      if header.Failure? {
        return header.outcome, [], [], [], [];
      }
      out, codes, scopes, pools, outs := Define(pair.children, header.value);
    }

    /** The part of `parse_function` after the header `h` of `children` is
        read: everything here is stated in terms of `h` alone. */
    method Define(children: seq<Node>, h: Header)
      returns (out: Outcome,
               ghost codes: seq<Block>, ghost scopes: seq<VarTree>, ghost pools: seq<seq<string>>, ghost outs: seq<Outcome>)
      requires Valid()
      requires |children| > 0 && h.name == children[0].text
      modifies this`functions, this`variables, this`strings, this`nextVartree
      ensures Valid()
      ensures old(strings) <= strings
      ensures nextVartree == old(nextVartree) + 1
      ensures Expect(children, h.body, Rule.Block).None? ==>
                out == Err("No code block for function: " + children[0].text)
      ensures !out.Ok? ==> functions == old(functions) && variables == old(variables)
      ensures out.Ok? ==>
                var id := old(nextVartree);
                && Expect(children, h.body, Rule.Block).Some?
                && id !in old(variables.children)
                && h.name in functions
                && functions == old(functions)[h.name := functions[h.name]]
                && functions[h.name] == Types.Function(h.name, id, h.parameters, h.returnType, functions[h.name].code)
                && |functions[h.name].code.statements| <= |children[h.body].children|
                && id in variables.children
                && variables == old(variables).(children := old(variables.children)[id := variables.children[id]])
                && variables.children[id].father == Some(0)
                && variables.children[id].stack == 0
      ensures Expect(children, h.body, Rule.Block).None? ==> strings == old(strings)
      ensures Expect(children, h.body, Rule.Block).Some? ==>
                var id := old(nextVartree);
                && BodyRun(children[h.body].children, externs, old(functions), codes, scopes, pools, outs, out)
                && codes[0] == Types.Block.Block(id, []) && scopes[0] == VarTree(Some(0), [], map[], 0)
                && pools[0] == old(strings) && strings == pools[|outs|]
                && (out.Ok? ==> functions[h.name].code == codes[|outs|] && variables.children[id] == scopes[|outs|])
    {
      var id := GenId();
      var vars := VarTree(Some(0), [], map[], 0);
      var func := Types.Function(h.name, id, h.parameters, h.returnType, Types.Block.Block(id, []));

      var block := Expect(children, h.body, Rule.Block);
      if block.None? {
        return Err("No code block for function: " + h.name), [], [], [], [];
      }
      ghost var before := |strings|;
      var code, vars', o;
      code, vars', o, codes, scopes, pools, outs := ParseBody(block.value.children, func.code, vars);
      StatementsGrowAll(old(functions), before, |strings|);
      if !o.Ok? {
        return o, codes, scopes, pools, outs;
      }
      func := func.(code := code);
      Register(func, vars');
      out := Ok;
    }

    /** The last step of `parse_function`: the scope goes into the root
        scope's children under the function's id, and the function into
        the table under its name. */
    method Register(func: Function, vars: VarTree)
      requires Valid()
      requires func.code.id == func.id && func.id !in variables.children && func.id < nextVartree
      requires vars.children == map[]
      requires forall s :: s in func.code.statements ==> WellFormedStatement(s, |strings|)
      modifies this`variables, this`functions
      ensures Valid()
      ensures variables == old(variables).(children := old(variables.children)[func.id := vars])
      ensures functions == old(functions)[func.name := func]
    {
      variables := variables.(children := variables.children[func.id := vars]);
      functions := functions[func.name := func];
    }

    /** The statement loop of `parse_function`: the body's statements in
        order, each against the block and scope the ones before it left,
        stopping at the first that fails. The ghost results are the run's
        trace (`BodyRun`). */
    method ParseBody(body: seq<Node>, code: Block, vars: VarTree)
      returns (code': Block, vars': VarTree, out: Outcome,
               ghost codes: seq<Block>, ghost scopes: seq<VarTree>, ghost pools: seq<seq<string>>, ghost outs: seq<Outcome>)
      requires forall s :: s in code.statements ==> WellFormedStatement(s, |strings|)
      modifies this`strings
      ensures old(strings) <= strings
      ensures code'.id == code.id
      ensures |code'.statements| <= |code.statements| + |body|
      ensures forall s :: s in code'.statements ==> WellFormedStatement(s, |strings|)
      ensures vars'.father == vars.father && vars'.children == vars.children && vars'.stack == vars.stack
      ensures BodyRun(body, externs, functions, codes, scopes, pools, outs, out)
      ensures codes[0] == code && scopes[0] == vars && pools[0] == old(strings)
      ensures code' == codes[|outs|] && vars' == scopes[|outs|] && strings == pools[|outs|]
    {
      code', vars' := code, vars;
      codes, scopes, pools, outs := [code], [vars], [strings], [];
      var k := 0;
      while k < |body|
        invariant 0 <= k <= |body|
        invariant old(strings) <= strings
        invariant code'.id == code.id
        invariant |code'.statements| <= |code.statements| + k
        invariant forall s :: s in code'.statements ==> WellFormedStatement(s, |strings|)
        invariant vars'.father == vars.father && vars'.children == vars.children && vars'.stack == vars.stack
        invariant |outs| == k && |codes| == k + 1 && |scopes| == k + 1 && |pools| == k + 1
        invariant codes[0] == code && scopes[0] == vars && pools[0] == old(strings)
        invariant code' == codes[k] && vars' == scopes[k] && strings == pools[k]
        invariant forall j :: 0 <= j < k ==> outs[j].Ok?
        invariant Trace(body, externs, functions, codes, scopes, pools, outs)
      {
        ghost var before := |strings|;
        var c, v, o := ParseStatement(body[k], code', vars');
        StatementsGrow(code'.statements, before, |strings|);
        TraceSnoc(body, externs, functions, codes, scopes, pools, outs, c, v, strings, o);
        codes, scopes, pools, outs := codes + [c], scopes + [v], pools + [strings], outs + [o];
        code', vars' := c, v;
        if !o.Ok? {
          return code', vars', o, codes, scopes, pools, outs;
        }
        k := k + 1;
      }
      out := Ok;
    }

    /** The header part of `parse_function`: name, parameter list and
        return type. */
    static method ReadHeader(children: seq<Node>) returns (h: Result<Header>)
      ensures h == FunctionHeader(children)
    {
      if |children| == 0 {
        return Failure(Fatal(Unwrap));
      }
      var name := children[0].text;
      var pos := 1;
      var parameters: map<string, VarType> := map[];
      var params := Expect(children, pos, Rule.ParameterList);
      if params.Some? {
        pos := pos + 1;
        var read := ReadParams(params.value.children);
        if read.Failure? {
          return Failure(read.outcome);
        }
        parameters := read.value;
      }
      var returnType := ReturnTypeAt(children, pos);
      if returnType.Failure? {
        return Failure(returnType.outcome);
      }
      if Expect(children, pos, Rule.ReturnType).Some? {
        pos := pos + 1;
      }
      h := Success(Header(name, parameters, returnType.value, pos));
    }

    /** The parameter loop of `parse_function`. */
    static method ReadParams(nodes: seq<Node>) returns (r: Result<map<string, VarType>>)
      ensures r == ParamMap(nodes)
    {
      var parameters: map<string, VarType> := map[];
      var j := 0;
      while j < |nodes|
        invariant 0 <= j <= |nodes|
        invariant ParamMap(nodes[..j]) == Success(parameters)
      {
        var param := nodes[j];
        assert nodes[..j + 1][..j] == nodes[..j];
        if |param.children| < 2 {
          ParamMapStopped(nodes, j + 1);
          return Failure(Fatal(Unwrap));
        }
        var paramType := FromStr(param.children[0].text);
        if paramType.None? {
          ParamMapStopped(nodes, j + 1);
          return Failure(Fatal("Unknown type: " + param.children[0].text));
        }
        parameters := parameters[param.children[1].text := paramType.value];
        j := j + 1;
      }
      assert nodes[..j] == nodes;
      r := Success(parameters);
    }

    static lemma {:induction false} ParamMapStopped(nodes: seq<Node>, i: nat)
      requires i <= |nodes|
      requires ParamMap(nodes[..i]).Failure?
      ensures ParamMap(nodes) == ParamMap(nodes[..i])
      decreases |nodes| - i
    {
      if i < |nodes| {
        assert nodes[..|nodes| - 1][..i] == nodes[..i];
        ParamMapStopped(nodes[..|nodes| - 1], i);
      } else {
        assert nodes[..i] == nodes;
      }
    }

    /** `parse_statement`: one line of a function body. */
    method ParseStatement(pair: Node, code: Block, vars: VarTree) returns (code': Block, vars': VarTree, out: Outcome)
      modifies this`strings
      ensures old(strings) <= strings
      ensures code'.id == code.id
      ensures !out.Ok? ==> code' == code
      ensures code'.statements == code.statements ||
              (|code'.statements| == |code.statements| + 1 && code'.statements[..|code.statements|] == code.statements)
      ensures forall i :: |code.statements| <= i < |code'.statements| ==> WellFormedStatement(code'.statements[i], |strings|)
      ensures vars'.father == vars.father && vars'.children == vars.children && vars'.stack == vars.stack
      ensures vars.variables <= vars'.variables
      ensures StatementApplied(pair, vars, externs, functions, old(strings), strings, code, code', vars', out)
    {
      code', vars' := code, vars;
      if !pair.rule.Statement? {
        return code, vars, Fatal("Expected statement");
      }
      if |pair.children| == 0 {
        return code, vars, Fatal(Unwrap);
      }
      var inner := pair.children[0];
      match inner.rule {
        case FunctionCall =>
          code', out := FunctionCall(inner, code, vars);
        case ReturnStatement =>
          out := Unsupported("return statement");
        case Declaration =>
          code', vars', out := Declaration(inner, code, vars);
        case Assignment =>
          code', out := Assignment(inner, code, vars);
        case _ =>
          out := Unsupported("statement kind");
      }
    }

    /** One pass of the argument loop of `function_call`: a string literal
        is appended to the pool and takes its index as id, an integer
        literal is kept as text, an identifier is looked up in the scope. */
    method Argument(arg: Node, vars: VarTree) returns (step: ArgStep)
      modifies this`strings
      ensures step == LowerArg(arg, vars.variables, |old(strings)|)
      ensures strings == old(strings) + (if step.Lowered? then step.interned else [])
    {
      if |arg.children| == 0 {
        return Stopped(Fatal(Unwrap));
      }
      var a := arg.children[0];
      match a.rule {
        case Literal =>
          if |a.children| == 0 {
            return Stopped(Fatal(Unwrap));
          }
          var lit := a.children[0];
          var varType := FromRule(lit.rule);
          if varType.None? {
            return Stopped(Fatal("Unknown type"));
          }
          var value := lit.text;
          var id: Option<nat>;
          match varType.value {
            case Int =>
              id := None;
            case String =>
              id := Some(|strings|);
              strings := strings + [value];
            case _ =>
              return Stopped(Unsupported("literal argument of this type"));
          }
          step := Lowered(Parameter("", Some(value), id, varType.value, true), if id.Some? then [value] else []);
        case Identifier =>
          var found := Lookup(vars.variables, a.text);
          if found.None? {
            return Stopped(Err("Unknown variable: " + a.text));
          }
          step := Lowered(Parameter(a.text, None, None, found.value.varType, false), []);
        case _ =>
          return Stopped(Fatal("Unknown argument"));
      }
    }

    /** `function_call`: lowers the arguments left to right, then records
        the call as an extern call when the name is an extern (even if a
        function has it too), as a call of a function when it is one, and
        fails otherwise. */
    method FunctionCall(pair: Node, code: Block, vars: VarTree) returns (code': Block, out: Outcome)
      modifies this`strings
      ensures CallApplied(pair, vars.variables, externs, functions, old(strings), strings, code, code', out)
      ensures old(strings) <= strings
      ensures forall i :: |code.statements| <= i < |code'.statements| ==> WellFormedStatement(code'.statements[i], |strings|)
    {
      code' := code;
      if |pair.children| == 0 {
        return code, Fatal(Unwrap);
      }
      var name := pair.children[0].text;
      var arguments: seq<Parameter> := [];
      var args: seq<Node> := [];
      var list := Expect(pair.children, 1, Rule.ArgumentList);
      if list.Some? {
        args := list.value.children;
      }
      assert args == CallArguments(pair.children);
      var i := 0;
      while i < |args|
        invariant 0 <= i <= |args|
        invariant LowerArgs(args[..i], vars.variables, old(strings)) == ArgsResult(arguments, strings, Ok)
      {
        var step := Argument(args[i], vars);
        LowerArgsSnoc(args, vars.variables, old(strings), i, step);
        if step.Stopped? {
          LowerArgsStopped(args, vars.variables, old(strings), i + 1);
          return code, step.outcome;
        }
        arguments := arguments + [step.param];
        i := i + 1;
      }
      assert args[..i] == args;
      LowerArgsWellFormed(args, vars.variables, old(strings));
      var call := FnCall(name, arguments);
      if name in externs {
        code' := code.(statements := code.statements + [Statement.ExternFunctionCall(call)]);
        return code', Ok;
      }
      if name in functions {
        code' := code.(statements := code.statements + [Statement.FunctionCall(call)]);
        return code', Ok;
      }
      out := Err("Unknown function: " + name);
    }

    /** `declaration`: appends the declared variable to the scope, then
        handles an initialiser as an assignment. */
    method Declaration(pair: Node, code: Block, vars: VarTree) returns (code': Block, vars': VarTree, out: Outcome)
      modifies this`strings
      ensures DeclarationApplied(pair, vars, old(strings), strings, code, code', vars', out)
      ensures old(strings) <= strings
      ensures forall i :: |code.statements| <= i < |code'.statements| ==> WellFormedStatement(code'.statements[i], |strings|)
    {
      code', vars' := code, vars;
      if |pair.children| < 2 {
        return code, vars, Fatal(Unwrap);
      }
      var declType := pair.children[0];
      var declName := pair.children[1];
      var varType := FromRule(declType.rule);
      if varType.None? {
        return code, vars, Fatal("Unknown type");
      }
      var v := Variable(declName.text, varType.value, None);
      vars' := vars.(variables := vars.variables + [v]);
      if |pair.children| > 2 {
        code', out := DeclarationAssignment(pair.children[2..], code, vars', v);
      } else {
        out := Ok;
      }
    }

    /** `declaration_assignment`. */
    method DeclarationAssignment(rest: seq<Node>, code: Block, vars: VarTree, v: Variable) returns (code': Block, out: Outcome)
      modifies this`strings
      ensures Applied(DeclarationAssignmentSpec(rest, v, vars.variables, |old(strings)|), old(strings), strings, code, code', out)
      ensures forall i :: |code.statements| <= i < |code'.statements| ==> WellFormedStatement(code'.statements[i], |strings|)
    {
      code' := code;
      if |rest| == 0 {
        return code, Fatal(Unwrap);
      }
      var identType := v.varType;
      var assignType := rest[0].rule;
      var check := CheckCanAssign(identType, assignType);
      if !check.Ok? {
        return code, check;
      }
      if |rest| < 2 {
        return code, Fatal(Unwrap);
      }
      var val := rest[1];
      code', out := AssignmentInner(code, vars, v, assignType, val);
    }

    /** `assignment`. */
    method Assignment(pair: Node, code: Block, vars: VarTree) returns (code': Block, out: Outcome)
      modifies this`strings
      ensures Applied(AssignmentSpec(pair.children, vars.variables, |old(strings)|), old(strings), strings, code, code', out)
      ensures forall i :: |code.statements| <= i < |code'.statements| ==> WellFormedStatement(code'.statements[i], |strings|)
    {
      code' := code;
      if |pair.children| == 0 {
        return code, Fatal(Unwrap);
      }
      var ident := pair.children[0].text;
      var position := FirstNamed(vars.variables, ident);
      if position.None? {
        return code, Err("Unknown variable: " + ident);
      }
      var identInfo := vars.variables[position.value];
      var identType := identInfo.varType;
      if |pair.children| < 2 || |pair.children[1].children| == 0 {
        return code, Fatal(Unwrap);
      }
      var assignType := pair.children[1].children[0].rule;
      var check := CheckCanAssign(identType, assignType);
      if !check.Ok? {
        return code, check;
      }
      if |pair.children| < 3 {
        return code, Fatal(Unwrap);
      }
      var val := pair.children[2];
      code', out := AssignmentInner(code, vars, identInfo, assignType, val);
    }

    /** `assignment_inner`: builds the value from a literal (interning its
        text whatever its type) or rejects an identifier value, then appends
        the assignment. */
    method AssignmentInner(code: Block, vars: VarTree, identInfo: Variable, assignType: Rule, val: Node) returns (code': Block, out: Outcome)
      modifies this`strings
      ensures Applied(AssignValue(identInfo.name, assignType, val, vars.variables, |old(strings)|), old(strings), strings, code, code', out)
      ensures forall i :: |code.statements| <= i < |code'.statements| ==> WellFormedStatement(code'.statements[i], |strings|)
    {
      code' := code;
      var parameter: Parameter;
      match val.rule {
        case Literal =>
          if |val.children| == 0 {
            return code, Fatal(Unwrap);
          }
          var lit := val.children[0];
          var literalType := FromRule(lit.rule);
          if literalType.None? {
            return code, Fatal("Unknown type");
          }
          var check := CheckCanAssign(literalType.value, assignType);
          if !check.Ok? {
            return code, check;
          }
          var id := Some(|strings|);
          var value := lit.text;
          strings := strings + [value];
          parameter := Parameter("", Some(value), id, literalType.value, true);
        case Identifier =>
          var identInfo2 := Lookup(vars.variables, val.text);
          if identInfo2.None? {
            return code, Err("Unknown variable: " + val.text);
          }
          var check := CheckCanAssign(identInfo2.value.varType, assignType);
          if !check.Ok? {
            return code, check;
          }
          return code, Unsupported("identifier on the right-hand side of an assignment");
        case _ =>
          return code, Fatal("Unknown value");
      }
      var stmt := Statement.Assignment(identInfo.name, assignType, parameter);
      code' := code.(statements := code.statements + [stmt]);
      out := Ok;
    }

    /** `parse_extern_function`: records the signature under its name,
        replacing any earlier extern of that name. */
    method ParseExternFunction(pair: Node) returns (out: Outcome)
      requires Valid()
      modifies this`externs
      ensures Valid()
      ensures ExternHeader(pair.children).Failure? ==>
                out == ExternHeader(pair.children).outcome && externs == old(externs)
      ensures ExternHeader(pair.children).Success? ==>
                var e := ExternHeader(pair.children).value;
                out.Ok? && externs == old(externs)[e.name := e]
    {
      var header := ReadExternHeader(pair.children);
      if header.Failure? {
        return header.outcome;
      }
      externs := externs[header.value.name := header.value];
      out := Ok;
    }

    /** The header part of `parse_extern_function`: name, parameter types
        and return type. */
    static method ReadExternHeader(children: seq<Node>) returns (h: Result<ExternFunction>)
      ensures h == ExternHeader(children)
    {
      if |children| == 0 {
        return Failure(Fatal(Unwrap));
      }
      var name := children[0].text;
      var pos := 1;
      var parameters: seq<VarType> := [];
      var params := Expect(children, pos, Rule.ExternParameterList);
      if params.Some? {
        pos := pos + 1;
        var read := ReadExternParams(params.value.children);
        if read.Failure? {
          return Failure(read.outcome);
        }
        parameters := read.value;
      }
      var returnType := ReturnTypeAt(children, pos);
      if returnType.Failure? {
        return Failure(returnType.outcome);
      }
      h := Success(Types.ExternFunction(name, parameters, returnType.value));
    }

    /** The parameter loop of `parse_extern_function`. */
    static method ReadExternParams(nodes: seq<Node>) returns (r: Result<seq<VarType>>)
      ensures r == ExternParamTypes(nodes)
    {
      var parameters: seq<VarType> := [];
      var j := 0;
      while j < |nodes|
        invariant 0 <= j <= |nodes|
        invariant ExternParamTypes(nodes[..j]) == Success(parameters)
      {
        assert nodes[..j + 1][..j] == nodes[..j];
        var paramType := FromStr(nodes[j].text);
        if paramType.None? {
          ExternParamTypesStopped(nodes, j + 1);
          return Failure(Fatal("Unknown type: " + nodes[j].text));
        }
        parameters := parameters + [paramType.value];
        j := j + 1;
      }
      assert nodes[..j] == nodes;
      r := Success(parameters);
    }

    static lemma {:induction false} ExternParamTypesStopped(nodes: seq<Node>, i: nat)
      requires i <= |nodes|
      requires ExternParamTypes(nodes[..i]).Failure?
      ensures ExternParamTypes(nodes) == ExternParamTypes(nodes[..i])
      decreases |nodes| - i
    {
      if i < |nodes| {
        assert nodes[..|nodes| - 1][..i] == nodes[..i];
        ExternParamTypesStopped(nodes[..|nodes| - 1], i);
      } else {
        assert nodes[..i] == nodes;
      }
    }

    /** `optimize`: collects the names of the functions with no statements,
        then removes them. */
    method Optimize() returns (out: Outcome)
      requires Valid()
      modifies this`functions
      ensures Valid()
      ensures out.Ok?
      ensures functions == map name | name in old(functions) && old(functions)[name].code.statements != [] :: old(functions)[name]
    {
      var remove := EmptyFunctions();
      RemoveFunctions(remove);
      out := Ok;
    }

    /** The removing loop of `optimize`. */
    method RemoveFunctions(remove: seq<string>)
      modifies this`functions
      ensures functions.Keys == old(functions).Keys - set j | 0 <= j < |remove| :: remove[j]
      ensures forall name :: name in functions ==> functions[name] == old(functions)[name]
    {
      var i := 0;
      while i < |remove|
        invariant 0 <= i <= |remove|
        invariant functions.Keys == old(functions).Keys - set j | 0 <= j < i :: remove[j]
        invariant forall name :: name in functions ==> functions[name] == old(functions)[name]
      {
        functions := functions - {remove[i]};
        i := i + 1;
      }
    }

    /** The collecting loop of `optimize`: the names of the functions with
        no statements, in the table's iteration order. */
    method EmptyFunctions() returns (remove: seq<string>)
      requires Valid()
      ensures forall name :: name in remove <==> name in functions && functions[name].code.statements == []
    {
      remove := [];
      var pending := functions.Keys;
      while pending != {}
        invariant pending <= functions.Keys
        invariant forall name :: name in remove ==> name in functions && name !in pending && functions[name].code.statements == []
        invariant forall name :: name in functions && name !in pending && functions[name].code.statements == [] ==> name in remove
        decreases pending
      {
        var key :| key in pending;
        var func := functions[key];
        if func.code.statements == [] {
          remove := remove + [func.name];
        }
        pending := pending - {key};
      }
    }
  }

  /** An extern declaration's signature: name, parameter types in order,
      and return type (`Void` when absent). */
  function ExternHeader(children: seq<Node>): (r: Result<ExternFunction>)
    ensures r.Failure? ==> r.outcome.Fatal?
    ensures r.Success? ==> |children| > 0 && r.value.name == children[0].text
    ensures r.Success? && Expect(children, 1, Rule.ExternParameterList).None? ==> r.value.parameters == []
    ensures |children| > 0 ==>
              var listed := Expect(children, 1, Rule.ExternParameterList).Some?;
              var pos: nat := if listed then 2 else 1;
              && (listed && ExternParamTypes(children[1].children).Failure? ==> r.Failure?)
              && (ReturnTypeAt(children, pos).Failure? ==> r.Failure?)
              && ((!listed || ExternParamTypes(children[1].children).Success?) && ReturnTypeAt(children, pos).Success? ==> r.Success?)
              && (r.Success? && listed ==> r.value.parameters == ExternParamTypes(children[1].children).value)
              && (r.Success? ==> r.value.returnType == ReturnTypeAt(children, pos).value)
  {
    if |children| == 0 then Failure(Fatal(Unwrap))
    else
      var hasParams := Expect(children, 1, Rule.ExternParameterList).Some?;
      var params := if hasParams then ExternParamTypes(children[1].children) else Success([]);
      match params
      case Failure(o) => Failure(o)
      case Success(ps) =>
        match ReturnTypeAt(children, if hasParams then 2 else 1)
        case Failure(o) => Failure(o)
        case Success(rt) => Success(Types.ExternFunction(children[0].text, ps, rt))
  }
}
