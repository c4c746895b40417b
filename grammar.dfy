/** The shape of the parse tree the analyser walks. The grammar itself is
    not modelled: a node is its rule tag, its children and the source text
    it spans. */
module Grammar {

  import opened Common

  /** The grammar rules the analyser and the code generator name. Every
      other rule of the grammar (the wrapper of one parameter, of one
      argument, of an assignment operator, ...) is `Other`. */
  datatype Rule =
    | Program
    | ExternFunction
    | ExternParameterList
    | Function
    | ParameterList
    | ReturnType
    | Block
    | Statement
    | FunctionCall
    | ArgumentList
    | ReturnStatement
    | Declaration
    | Assignment
    | Literal
    | Identifier
    | StringLit     // `string`
    | StringToken   // `STRING`
    | CharLit       // `char`
    | IntegerLit    // `integer`
    | IntToken      // `INT`
    | Assign
    | AssignPlus
    | AssignMinus
    | AssignMulti
    | AssignDiv
    | AssignMod
    | AssignAnd
    | AssignOr
    | Eoi
    | Other(name: string)

  /** The rule's name as the grammar spells it (what `{:?}` prints). */
  function RuleName(r: Rule): string
  {
    match r
    case Program => "program"
    case ExternFunction => "extern_function"
    case ExternParameterList => "extern_parameter_list"
    case Function => "function"
    case ParameterList => "parameter_list"
    case ReturnType => "return_type"
    case Block => "block"
    case Statement => "statement"
    case FunctionCall => "function_call"
    case ArgumentList => "argument_list"
    case ReturnStatement => "return_statement"
    case Declaration => "declaration"
    case Assignment => "assignment"
    case Literal => "literal"
    case Identifier => "identifier"
    case StringLit => "string"
    case StringToken => "STRING"
    case CharLit => "char"
    case IntegerLit => "integer"
    case IntToken => "INT"
    case Assign => "ASSIGN"
    case AssignPlus => "ASSIGN_PLUS"
    case AssignMinus => "ASSIGN_MINUS"
    case AssignMulti => "ASSIGN_MULTI"
    case AssignDiv => "ASSIGN_DIV"
    case AssignMod => "ASSIGN_MOD"
    case AssignAnd => "ASSIGN_AND"
    case AssignOr => "ASSIGN_OR"
    case Eoi => "EOI"
    case Other(name) => name
  }

  /** A parse-tree node: rule tag, children in order, spanned source text. */
  datatype Node = Node(rule: Rule, children: seq<Node>, text: string)

  /** `Syntax::expect`: peeks at the child at `pos` of a pair iterator and
      returns it only when it carries `rule`. */
  function Expect(children: seq<Node>, pos: nat, rule: Rule): (r: Option<Node>)
    ensures r.Some? <==> pos < |children| && children[pos].rule == rule
    ensures r.Some? ==> r.value == children[pos]
  {
    if pos < |children| && children[pos].rule == rule then Some(children[pos]) else None
  }
}
