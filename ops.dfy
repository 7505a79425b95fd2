/** The closed set of binary operations and the table that drives generation. */
module Ops {
  import opened Parsing
  import opened Ast

  datatype Op = Add | Sub | Mul | Div | AddAssign | SubAssign | MulAssign | DivAssign

  predicate IsAssign(op: Op) {
    op.AddAssign? || op.SubAssign? || op.MulAssign? || op.DivAssign?
  }

  /** The constructive operation an assignment operation corresponds to. */
  function Base(op: Op): (b: Op)
    ensures !IsAssign(b)
    ensures b == op <==> !IsAssign(op)
    ensures Table(b).symbol == Table(op).symbol
  {
    match op
    case AddAssign => Add
    case SubAssign => Sub
    case MulAssign => Mul
    case DivAssign => Div
    case _ => op
  }

  /** One row of the operation table: trait, method header, field operator. */
  datatype Row = Row(traitName: Ident, header: FnHeader, symbol: Symbol)

  function Table(op: Op): (r: Row)
    ensures r.symbol == Plus <==> op == Add || op == AddAssign
    ensures r.symbol == Minus <==> op == Sub || op == SubAssign
    ensures r.symbol == Star <==> op == Mul || op == MulAssign
    ensures r.symbol == Slash <==> op == Div || op == DivAssign
    ensures r.header.hasRhs
    ensures r.header.receiver == SelfByMutRef <==> IsAssign(op)
    ensures r.header.returnsOutput <==> !IsAssign(op)
    ensures r.symbol == Plus <==> r.traitName in {"Add", "AddAssign"}
    ensures r.symbol == Minus <==> r.traitName in {"Sub", "SubAssign"}
    ensures r.symbol == Star <==> r.traitName in {"Mul", "MulAssign"}
    ensures r.symbol == Slash <==> r.traitName in {"Div", "DivAssign"}
    ensures IsAssign(op) <==> r.traitName in {"AddAssign", "SubAssign", "MulAssign", "DivAssign"}
    ensures (r.traitName, r.header.name) in
      {("Add", "add"), ("Sub", "sub"), ("Mul", "mul"), ("Div", "div"),
       ("AddAssign", "add_assign"), ("SubAssign", "sub_assign"),
       ("MulAssign", "mul_assign"), ("DivAssign", "div_assign")}
  {
    match op
    case Add => Row("Add", FnHeader("add", SelfByValue, true, true), Plus)
    case Sub => Row("Sub", FnHeader("sub", SelfByValue, true, true), Minus)
    case Mul => Row("Mul", FnHeader("mul", SelfByValue, true, true), Star)
    case Div => Row("Div", FnHeader("div", SelfByValue, true, true), Slash)
    case AddAssign => Row("AddAssign", FnHeader("add_assign", SelfByMutRef, true, false), Plus)
    case SubAssign => Row("SubAssign", FnHeader("sub_assign", SelfByMutRef, true, false), Minus)
    case MulAssign => Row("MulAssign", FnHeader("mul_assign", SelfByMutRef, true, false), Star)
    case DivAssign => Row("DivAssign", FnHeader("div_assign", SelfByMutRef, true, false), Slash)
  }

  /** Whether `type Output = Self;` is emitted. */
  function OutputAlias(op: Op): (b: bool)
    ensures b <==> !IsAssign(op)
  {
    match op
    case Add | Sub | Mul | Div => true
    case _ => false
  }

  /** Whether the literal is assigned through `*self =`. */
  function Deref(op: Op): (b: bool)
    ensures b <==> IsAssign(op)
  {
    match op
    case AddAssign | SubAssign | MulAssign | DivAssign => true
    case _ => false
  }

  /** Every operation gets exactly one of the output alias and the assignment. */
  lemma AliasXorDeref(op: Op)
    ensures OutputAlias(op) != Deref(op)
  {
  }

  /** An assignment row is its constructive row with `Assign` / `_assign`
      appended, the receiver made `&mut self`, no result, and the same operator. */
  lemma AssignRowExtendsBase(op: Op)
    requires IsAssign(op)
    ensures Table(op).traitName == Table(Base(op)).traitName + "Assign"
    ensures Table(op).header.name == Table(Base(op)).header.name + "_assign"
    ensures Table(op).symbol == Table(Base(op)).symbol
  {
    match op
    case AddAssign => assert "AddAssign" == "Add" + "Assign" && "add_assign" == "add" + "_assign";
    case SubAssign => assert "SubAssign" == "Sub" + "Assign" && "sub_assign" == "sub" + "_assign";
    case MulAssign => assert "MulAssign" == "Mul" + "Assign" && "mul_assign" == "mul" + "_assign";
    case DivAssign => assert "DivAssign" == "Div" + "Assign" && "div_assign" == "div" + "_assign";
  }

  /** Distinct operations implement distinct traits, none of them `Neg`. */
  lemma TraitNamesDistinct(op1: Op, op2: Op)
    ensures op1 != op2 ==> Table(op1).traitName != Table(op2).traitName
    ensures Table(op1).traitName != "Neg"
  {
  }
}
