/**
 * Small type utilities of the checker: widening a literal type to its
 * primitive type, the Lua metamethod name of an overloadable operator,
 * the boolean test and the text of a primitive type.
 */
module TypeUtilities {

  import opened Wrappers

  datatype PrimitiveType = Nil | Boolean | Number | String

  /** The value of a literal type: `42.0`, `42`, `"test"`, `true`, `nil`. */
  datatype Literal =
    | NumberLit(number: real)
    | IntegerLit(integer: int)
    | StringLit(text: string)
    | BooleanLit(boolean: bool)
    | NilLit

  /** The kinds of type the utilities distinguish here. */
  datatype TypeKind = Primitive(primitive: PrimitiveType) | LiteralType(literal: Literal)

  /** The primitive type a literal belongs to; integers are numbers. */
  function LiteralPrimitive(l: Literal): PrimitiveType {
    match l
    case NumberLit(_) => Number
    case IntegerLit(_) => Number
    case StringLit(_) => String
    case BooleanLit(_) => Boolean
    case NilLit => Nil
  }

  /** Does the literal belong to primitive type `p`? */
  predicate Inhabits(l: Literal, p: PrimitiveType) {
    match p
    case Nil => l.NilLit?
    case Boolean => l.BooleanLit?
    case Number => l.NumberLit? || l.IntegerLit?
    case String => l.StringLit?
  }

  /**
   * Replaces a literal type by the primitive type of its value, so that a
   * variable initialised with `42` has type `number`; a primitive type is
   * left as it is.
   */
  function WidenType(t: TypeKind): (r: TypeKind)
    ensures r.Primitive?
    ensures t.Primitive? ==> r == t
    ensures t.LiteralType? ==> Inhabits(t.literal, r.primitive)
  {
    match t
    case Primitive(_) => t
    case LiteralType(l) => Primitive(LiteralPrimitive(l))
  }

  /** The widening of each literal of the tests. */
  lemma WidenLiterals(x: real, n: int, s: string, b: bool)
    ensures WidenType(LiteralType(NumberLit(x))) == Primitive(Number)
    ensures WidenType(LiteralType(IntegerLit(n))) == Primitive(Number)
    ensures WidenType(LiteralType(StringLit(s))) == Primitive(String)
    ensures WidenType(LiteralType(BooleanLit(b))) == Primitive(Boolean)
    ensures WidenType(LiteralType(NilLit)) == Primitive(Nil)
  {
  }

  /** Each literal inhabits exactly one primitive type, the one it widens to. */
  lemma WidenTypeIsTheOnlyPrimitive(l: Literal, p: PrimitiveType)
    ensures Inhabits(l, p) <==> WidenType(LiteralType(l)) == Primitive(p)
  {
  }

  /** Widening twice is widening once. */
  lemma WidenTypeIdempotent(t: TypeKind)
    ensures WidenType(WidenType(t)) == WidenType(t)
  {
  }

  /** Only the primitive boolean type is boolean. */
  function IsBooleanType(t: TypeKind): (r: bool)
    ensures r <==> t == Primitive(Boolean)
  {
    t.Primitive? && t.primitive == Boolean
  }

  /** A boolean literal widens to a boolean type, and no other literal does. */
  lemma WidenedBooleans(l: Literal)
    ensures IsBooleanType(WidenType(LiteralType(l))) <==> l.BooleanLit?
  {
  }

  /** The text of a primitive type as written in source. */
  function PrimitiveName(p: PrimitiveType): (s: string)
    ensures |s| > 0
  {
    match p
    case Nil => "nil"
    case Boolean => "boolean"
    case Number => "number"
    case String => "string"
  }

  /** Distinct primitive types are written differently. */
  lemma PrimitiveNamesDistinct(p: PrimitiveType, q: PrimitiveType)
    ensures PrimitiveName(p) == PrimitiveName(q) <==> p == q
  {
  }

  /** The operators a class or table may overload. */
  datatype OperatorKind =
    | Add | Subtract | Multiply | Divide | FloorDivide | Modulo | Power | Concatenate
    | Equal | NotEqual | LessThan | LessThanOrEqual | GreaterThan | GreaterThanOrEqual
    | Length | UnaryMinus
    | BitwiseAnd | BitwiseOr | BitwiseXor | ShiftLeft | ShiftRight
    | Index | NewIndex | Call

  /** The Lua metamethod implementing an operator. */
  function OperatorKindName(op: OperatorKind): (name: string)
    ensures |name| > 2 && name[..2] == "__"
  {
    match op
    case Add => "__add"
    case Subtract => "__sub"
    case Multiply => "__mul"
    case Divide => "__div"
    case FloorDivide => "__idiv"
    case Modulo => "__mod"
    case Power => "__pow"
    case Concatenate => "__concat"
    case Equal => "__eq"
    case NotEqual => "__ne"
    case LessThan => "__lt"
    case LessThanOrEqual => "__le"
    case GreaterThan => "__gt"
    case GreaterThanOrEqual => "__ge"
    case Length => "__len"
    case UnaryMinus => "__unm"
    case BitwiseAnd => "__band"
    case BitwiseOr => "__bor"
    case BitwiseXor => "__bxor"
    case ShiftLeft => "__shl"
    case ShiftRight => "__shr"
    case Index => "__index"
    case NewIndex => "__newindex"
    case Call => "__call"
  }

  /**
   * The operator a metamethod name stands for, if any: the inverse of
   * `OperatorKindName`. Names are told apart by their length first.
   */
  function MetamethodOperator(name: string): Option<OperatorKind> {
    match |name|
    case 4 =>
      if name == "__eq" then Some(Equal)
      else if name == "__ne" then Some(NotEqual)
      else if name == "__lt" then Some(LessThan)
      else if name == "__le" then Some(LessThanOrEqual)
      else if name == "__gt" then Some(GreaterThan)
      else if name == "__ge" then Some(GreaterThanOrEqual)
      else None
    case 5 =>
      if name == "__add" then Some(Add)
      else if name == "__sub" then Some(Subtract)
      else if name == "__mul" then Some(Multiply)
      else if name == "__div" then Some(Divide)
      else if name == "__mod" then Some(Modulo)
      else if name == "__pow" then Some(Power)
      else if name == "__len" then Some(Length)
      else if name == "__unm" then Some(UnaryMinus)
      else if name == "__bor" then Some(BitwiseOr)
      else if name == "__shl" then Some(ShiftLeft)
      else if name == "__shr" then Some(ShiftRight)
      else None
    case 6 =>
      if name == "__idiv" then Some(FloorDivide)
      else if name == "__band" then Some(BitwiseAnd)
      else if name == "__bxor" then Some(BitwiseXor)
      else if name == "__call" then Some(Call)
      else None
    case 7 => if name == "__index" then Some(Index) else None
    case 8 => if name == "__concat" then Some(Concatenate) else None
    case 10 => if name == "__newindex" then Some(NewIndex) else None
    case _ => None
  }

  /** Reading back the metamethod name of an operator gives the operator. */
  lemma {:induction false} MetamethodRoundTrip(op: OperatorKind)
    ensures MetamethodOperator(OperatorKindName(op)) == Some(op)
  {
    match op
    case Add => case Subtract => case Multiply => case Divide =>
    case FloorDivide => case Modulo => case Power => case Concatenate =>
    case Equal => case NotEqual => case LessThan => case LessThanOrEqual =>
    case GreaterThan => case GreaterThanOrEqual => case Length => case UnaryMinus =>
    case BitwiseAnd => case BitwiseOr => case BitwiseXor => case ShiftLeft =>
    case ShiftRight => case Index => case NewIndex => case Call =>
  }

  /** A name that reads as an operator is that operator's metamethod name. */
  lemma MetamethodNamesOnly(name: string, op: OperatorKind)
    requires MetamethodOperator(name) == Some(op)
    ensures OperatorKindName(op) == name
  {
    if |name| == 4 {
      if name == "__eq" {
        assert op == Equal;
      } else if name == "__ne" {
        assert op == NotEqual;
      } else if name == "__lt" {
        assert op == LessThan;
      } else if name == "__le" {
        assert op == LessThanOrEqual;
      } else if name == "__gt" {
        assert op == GreaterThan;
      } else if name == "__ge" {
        assert op == GreaterThanOrEqual;
      }
    } else if |name| == 5 {
      if name == "__add" {
        assert op == Add;
      } else if name == "__sub" {
        assert op == Subtract;
      } else if name == "__mul" {
        assert op == Multiply;
      } else if name == "__div" {
        assert op == Divide;
      } else if name == "__mod" {
        assert op == Modulo;
      } else if name == "__pow" {
        assert op == Power;
      } else if name == "__len" {
        assert op == Length;
      } else if name == "__unm" {
        assert op == UnaryMinus;
      } else if name == "__bor" {
        assert op == BitwiseOr;
      } else if name == "__shl" {
        assert op == ShiftLeft;
      } else if name == "__shr" {
        assert op == ShiftRight;
      }
    } else if |name| == 6 {
      if name == "__idiv" {
        assert op == FloorDivide;
      } else if name == "__band" {
        assert op == BitwiseAnd;
      } else if name == "__bxor" {
        assert op == BitwiseXor;
      } else if name == "__call" {
        assert op == Call;
      }
    } else if |name| == 7 {
      if name == "__index" {
        assert op == Index;
      }
    } else if |name| == 8 {
      if name == "__concat" {
        assert op == Concatenate;
      }
    } else if |name| == 10 {
      if name == "__newindex" {
        assert op == NewIndex;
      }
    }
  }

  /** No two operators share a metamethod. */
  lemma OperatorKindNameInjective(a: OperatorKind, b: OperatorKind)
    ensures OperatorKindName(a) == OperatorKindName(b) <==> a == b
  {
    MetamethodRoundTrip(a);
    MetamethodRoundTrip(b);
  }

  /** The metamethod table of all 24 operators. */
  lemma OperatorKindNameTable()
    ensures OperatorKindName(Add) == "__add" && OperatorKindName(Subtract) == "__sub"
    ensures OperatorKindName(Multiply) == "__mul" && OperatorKindName(Divide) == "__div"
    ensures OperatorKindName(FloorDivide) == "__idiv" && OperatorKindName(Modulo) == "__mod"
    ensures OperatorKindName(Power) == "__pow" && OperatorKindName(Concatenate) == "__concat"
    ensures OperatorKindName(Equal) == "__eq" && OperatorKindName(NotEqual) == "__ne"
    ensures OperatorKindName(LessThan) == "__lt" && OperatorKindName(LessThanOrEqual) == "__le"
    ensures OperatorKindName(GreaterThan) == "__gt" && OperatorKindName(GreaterThanOrEqual) == "__ge"
    ensures OperatorKindName(Length) == "__len" && OperatorKindName(UnaryMinus) == "__unm"
    ensures OperatorKindName(BitwiseAnd) == "__band" && OperatorKindName(BitwiseOr) == "__bor"
    ensures OperatorKindName(BitwiseXor) == "__bxor" && OperatorKindName(ShiftLeft) == "__shl"
    ensures OperatorKindName(ShiftRight) == "__shr" && OperatorKindName(Index) == "__index"
    ensures OperatorKindName(NewIndex) == "__newindex" && OperatorKindName(Call) == "__call"
  {
  }
}
