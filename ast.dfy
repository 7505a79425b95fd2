/**
 * Abstract syntax of the implementation blocks the generator emits, in place
 * of the token text that `quote!` renders.
 */
module Ast {
  import opened Wrappers
  import opened Parsing

  /** The name of the right-hand parameter, and of its converted binding. */
  const Rhs: Ident := "rhs"

  /** The infix operator that combines two fields. */
  datatype Symbol = Plus | Minus | Star | Slash

  /** `self` or `&mut self`. */
  datatype Receiver = SelfByValue | SelfByMutRef

  /** `fn name(receiver[, rhs: T])[ -> Self::Output]`. */
  datatype FnHeader = FnHeader(name: Ident, receiver: Receiver, hasRhs: bool, returnsOutput: bool)

  /** The base of a field access: `self`, or a local binding. */
  datatype Place = SelfValue | Local(name: Ident)

  datatype Expr =
    | FieldOf(place: Place, member: Member)
    | Binary(op: Symbol, lhs: Expr, rhs: Expr)
    | Negate(operand: Expr)

  /** One entry `member: value` of a struct literal. */
  datatype FieldInit = FieldInit(member: Member, value: Expr)

  /** `Path { inits... }`. */
  datatype StructLit = StructLit(path: Ident, inits: seq<FieldInit>)

  /** `let binding = source.into();`, the only statement the generator emits. */
  datatype Stmt = LetInto(binding: Ident, source: Ident)

  /** The method's final expression: a new value, or `*self = ...`. */
  datatype Tail = Construct(lit: StructLit) | AssignSelf(lit: StructLit)

  datatype Body = Body(stmts: seq<Stmt>, tail: Tail)

  /**
   * `impl[<T: Into<intoBound>>] ::std::ops::traitName[<T>] for selfTy`, with
   * `type Output = Self;` when `outputSelf`, and one method.
   */
  datatype ImplBlock = ImplBlock(
    intoBound: Option<Ident>,
    traitName: Ident,
    selfTy: Ident,
    outputSelf: bool,
    header: FnHeader,
    body: Body)
}
