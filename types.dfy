/** The program model the analyser builds and the code generator reads:
    value types, variables, scopes, functions, statements. */
module Types {

  import opened Common
  import opened Grammar

  datatype VarType = Int | Char | String | Bool | Void | VarArgs

  /** What `{:?}` prints for a type, used in error messages. */
  function VarTypeName(t: VarType): string
  {
    match t
    case Int => "Int"
    case Char => "Char"
    case String => "String"
    case Bool => "Bool"
    case Void => "Void"
    case VarArgs => "VarArgs"
  }

  /** The source keyword of each type. */
  function TypeKeyword(t: VarType): string
  {
    match t
    case Int => "int"
    case Char => "char"
    case String => "string"
    case Bool => "bool"
    case Void => "void"
    case VarArgs => "..."
  }

  /** `VarType::from_str`: `None` where the Rust code panics ("Unknown type").
      It accepts exactly the six keywords, and each names its own type. */
  function FromStr(s: string): (r: Option<VarType>)
    ensures r.Some? ==> TypeKeyword(r.value) == s
    ensures r.None? ==> forall t :: TypeKeyword(t) != s
  {
    if s == "int" then Some(Int)
    else if s == "char" then Some(Char)
    else if s == "string" then Some(String)
    else if s == "bool" then Some(Bool)
    else if s == "void" then Some(Void)
    else if s == "..." then Some(VarArgs)
    else None
  }

  /** `VarType::from_rule`: the type of a literal or of a declared variable,
      read from a grammar rule; `None` where the Rust code panics.
      Only three types can come out of it. */
  function FromRule(r: Rule): (t: Option<VarType>)
    ensures t.Some? ==> t.value == Int || t.value == Char || t.value == String
    ensures t.Some? <==> r.StringLit? || r.StringToken? || r.CharLit? || r.IntegerLit? || r.IntToken?
    ensures t == Some(String) <==> r.StringLit? || r.StringToken?
    ensures t == Some(Char) <==> r.CharLit?
    ensures t == Some(Int) <==> r.IntegerLit? || r.IntToken?
  {
    if r.StringLit? || r.StringToken? then Some(String)
    else if r.CharLit? then Some(Char)
    else if r.IntegerLit? || r.IntToken? then Some(Int)
    else None
  }

  /** `VAR_TYPES_MATH` and `VAR_TYPES_LOGIC`. */
  const VarTypesMath: seq<VarType> := [Int, Char]
  const VarTypesLogic: seq<VarType> := [Bool, Int, Char]

  /** A declared variable; `stack` is its frame offset once laid out. */
  datatype Variable = Variable(name: string, varType: VarType, stack: Option<nat>)

  /** A call argument or an assigned value: a literal (with its text and,
      once interned, its string-pool id) or a named variable. */
  datatype Parameter = Parameter(
    name: string,
    value: Option<string>,
    id: Option<nat>,
    varType: VarType,
    isLiteral: bool)

  /** A scope: its own variables in declaration order and child scopes by id. */
  datatype VarTree = VarTree(
    father: Option<nat>,
    variables: seq<Variable>,
    children: map<nat, VarTree>,
    stack: nat)

  datatype Function = Function(
    name: string,
    id: nat,
    parameters: map<string, VarType>,
    returnType: VarType,
    code: Block)

  datatype Block = Block(id: nat, statements: seq<Statement>)

  datatype ExternFunction = ExternFunction(name: string, parameters: seq<VarType>, returnType: VarType)

  datatype FnCall = FnCall(name: string, parameters: seq<Parameter>)

  datatype Statement =
    | Block(block: Block)
    | FunctionCall(call: FnCall)
    | ExternFunctionCall(call: FnCall)
    | Return(returnType: VarType)
    | Assignment(target: string, op: Rule, value: Parameter)
}
