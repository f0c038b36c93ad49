/** Tokens and expression trees of the query language. */
module Syntax {
  import opened Wrappers

  /** Keywords that play no part in expressions. */
  datatype Keyword =
    | Match | Return | Create | As | Where | Set | Remove | Delete | Detach | Optional
    | Merge | With | Order | By | Limit | Skip | Asc | Desc | On
    | Unwind | Index | Drop | Edge | Snapshot | From | Hyperedge
    | At | Time | Between | History

  /** Punctuation that plays no part in expressions. */
  datatype Mark = ArrowRight | ArrowLeft | DoubleDash | LBrace | RBrace | Colon | DoubleDot | Pipe

  /** Tokens as the lexer delivers them, without their spans. */
  datatype Token =
    | Word(Keyword) | Punct(Mark)
    | Distinct | True | False | Null | And | Or | Not | Is | Count
    | Float(real) | Integer(int) | StringLiteral(string)
    | BacktickIdent(name: string) | Ident(name: string) | Parameter(string)
    | NotEqual | BangEqual | LessEqual | GreaterEqual | Eq | Less | Greater
    | Plus | Minus | Star | Slash | Percent
    | LParen | RParen | LBracket | RBracket | Dot | Comma

  datatype Literal =
    | IntegerLit(n: int) | FloatLit(f: real) | StringLit(string) | BoolLit(bool) | NullLit

  datatype BinaryOp =
    | AddOp | SubOp | MulOp | DivOp | ModOp
    | EqOp | NeqOp | LtOp | LteOp | GtOp | GteOp
    | AndOp | OrOp

  datatype UnaryOp = NotOp | NegOp

  /** Expression trees. The temporal reference is built by the hyperedge clause only and is
      not part of the expression grammar. */
  datatype Expression =
    | Lit(literal: Literal)
    | Variable(name: string)
    | Property(base: Expression, prop: string)
    | Param(name: string)
    | Binary(op: BinaryOp, lhs: Expression, rhs: Expression)
    | Unary(uop: UnaryOp, operand: Expression)
    | FunctionCall(fn: string, distinct: bool, args: seq<Expression>)
    | IsNull(inner: Expression, negated: bool)
    | CountStar
    | ListLit(elements: seq<Expression>)

  function LeftPower(op: BinaryOp): nat {
    match op
    case OrOp => 1
    case AndOp => 3
    case EqOp | NeqOp | LtOp | LteOp | GtOp | GteOp => 5
    case AddOp | SubOp => 7
    case MulOp | DivOp | ModOp => 9
  }

  function RightPower(op: BinaryOp): nat {
    match op
    case OrOp => 2
    case AndOp => 4
    case EqOp | NeqOp | LtOp | LteOp | GtOp | GteOp => 6
    case AddOp | SubOp => 8
    case MulOp | DivOp | ModOp => 10
  }

  function PrefixPower(op: UnaryOp): nat {
    match op
    case NotOp => 4
    case NegOp => 11
  }

  const IS_POWER: nat := 5

  function BinaryOpOf(token: Token): Option<BinaryOp> {
    match token
    case Plus => Some(AddOp)
    case Minus => Some(SubOp)
    case Star => Some(MulOp)
    case Slash => Some(DivOp)
    case Percent => Some(ModOp)
    case Eq => Some(EqOp)
    case NotEqual => Some(NeqOp)
    case BangEqual => Some(NeqOp)
    case Less => Some(LtOp)
    case LessEqual => Some(LteOp)
    case Greater => Some(GtOp)
    case GreaterEqual => Some(GteOp)
    case And => Some(AndOp)
    case Or => Some(OrOp)
    case _ => None
  }

  /** The name the parser gives every call written with the `count` keyword. */
  const COUNT: string := "count"
}
