/**
 * Block synthesis: one generic implementation per operation, the hard-coded
 * `Neg` template, and the entry points that wire extraction to synthesis.
 */
module Synthesis {
  import opened Wrappers
  import opened Parsing
  import opened Ast
  import opened Ops

  /** The per-field entry of a template: `f: self.f OP rhs.f` or `f: -self.f`. */
  datatype Entry = BinaryEntry(symbol: Symbol) | NegEntry

  function EntryFor(e: Entry, m: Member): FieldInit {
    match e
    case BinaryEntry(sym) => FieldInit(m, Binary(sym, FieldOf(SelfValue, m), FieldOf(Local(Rhs), m)))
    case NegEntry => FieldInit(m, Negate(FieldOf(SelfValue, m)))
  }

  /** The repetition `#( ... )*` of a template entry over the members. */
  function Repeat(e: Entry, members: seq<Member>): (r: seq<FieldInit>)
    ensures |r| == |members|
    ensures forall k :: 0 <= k < |members| ==> r[k] == EntryFor(e, members[k])
  {
    if members == [] then [] else [EntryFor(e, members[0])] + Repeat(e, members[1..])
  }

  /** `complete_internal`: the block for one binary operation. */
  function CompleteInternal(name: Ident, members: seq<Member>, op: Op): (b: ImplBlock)
    ensures b.intoBound == Some(name) && b.selfTy == name
    ensures b.traitName == Table(op).traitName && b.header == Table(op).header
    ensures b.outputSelf <==> !IsAssign(op)
    ensures b.body.stmts == [LetInto(Rhs, Rhs)]
    ensures b.body.tail.AssignSelf? <==> IsAssign(op)
    ensures b.body.tail.lit.path == name && |b.body.tail.lit.inits| == |members|
    ensures forall k :: 0 <= k < |members| ==>
      b.body.tail.lit.inits[k] == FieldInit(members[k],
        Binary(Table(op).symbol, FieldOf(SelfValue, members[k]), FieldOf(Local(Rhs), members[k])))
  {
    var row := Table(op);
    var lit := StructLit(name, Repeat(BinaryEntry(row.symbol), members));
    ImplBlock(Some(name), row.traitName, name, OutputAlias(op), row.header,
      Body([LetInto(Rhs, Rhs)], if Deref(op) then AssignSelf(lit) else Construct(lit)))
  }

  /** The `Neg` template: no right-hand side, no conversion, `Output = Self`. */
  function NegBlock(name: Ident, members: seq<Member>): (b: ImplBlock)
    ensures b.intoBound == None && b.selfTy == name && b.traitName == "Neg"
    ensures b.outputSelf
    ensures b.header == FnHeader("neg", SelfByValue, false, true)
    ensures b.body.stmts == [] && b.body.tail.Construct?
    ensures b.body.tail.lit.path == name && |b.body.tail.lit.inits| == |members|
    ensures forall k :: 0 <= k < |members| ==>
      b.body.tail.lit.inits[k] == FieldInit(members[k], Negate(FieldOf(SelfValue, members[k])))
  {
    ImplBlock(None, "Neg", name, true, FnHeader("neg", SelfByValue, false, true),
      Body([], Construct(StructLit(name, Repeat(NegEntry, members)))))
  }

  /** `complete`: extraction followed by the block for `op`. */
  function Complete(ast: DeriveInput, op: Op): (r: Result<ImplBlock>)
    ensures r.Ok? <==> ast.data.Struct?
    ensures r.Panic? ==> r.msg == NotAStruct
    ensures r.Ok? ==> r.value == CompleteInternal(ast.ident, Extract(ast).value.members, op)
  {
    match Extract(ast)
    case Panic(msg) => Panic(msg)
    case Ok(Schema(name, fields)) => Ok(CompleteInternal(name, fields, op))
  }

  /** `derive_neg`. */
  function DeriveNeg(ast: DeriveInput): (r: Result<ImplBlock>)
    ensures r.Ok? <==> ast.data.Struct?
    ensures r.Panic? ==> r.msg == NotAStruct
    ensures r.Ok? ==> r.value == NegBlock(ast.ident, Extract(ast).value.members)
  {
    match Extract(ast)
    case Panic(msg) => Panic(msg)
    case Ok(Schema(name, fields)) => Ok(NegBlock(name, fields))
  }

  /** The order in which `derive_all` emits the binary blocks. */
  const BundleOrder: seq<Op> := [Add, Sub, Mul, Div, AddAssign, SubAssign, MulAssign, DivAssign]

  /** `derive_all`: parses once, then the eight binary blocks and `Neg`. */
  function DeriveAll(ast: DeriveInput): (r: Result<seq<ImplBlock>>)
    ensures r.Ok? <==> ast.data.Struct?
    ensures r.Panic? ==> r.msg == NotAStruct
    ensures r.Ok? ==> |r.value| == 9
    ensures r.Ok? ==> forall k :: 0 <= k < 8 ==>
      r.value[k] == CompleteInternal(ast.ident, Extract(ast).value.members, BundleOrder[k])
    ensures r.Ok? ==> r.value[8] == NegBlock(ast.ident, Extract(ast).value.members)
  {
    match Extract(ast)
    case Panic(msg) => Panic(msg)
    case Ok(Schema(name, fields)) =>
      Ok(seq(8, k requires 0 <= k < 8 => CompleteInternal(name, fields, BundleOrder[k]))
         + [NegBlock(name, fields)])
  }

  /** Each of the eight operations appears exactly once in the bundle order. */
  lemma BundleOrderIsComplete(op: Op)
    ensures exists k :: 0 <= k < 8 && BundleOrder[k] == op
    ensures forall i, j :: 0 <= i < j < 8 ==> BundleOrder[i] != BundleOrder[j]
  {
    match op
    case Add => assert BundleOrder[0] == op;
    case Sub => assert BundleOrder[1] == op;
    case Mul => assert BundleOrder[2] == op;
    case Div => assert BundleOrder[3] == op;
    case AddAssign => assert BundleOrder[4] == op;
    case SubAssign => assert BundleOrder[5] == op;
    case MulAssign => assert BundleOrder[6] == op;
    case DivAssign => assert BundleOrder[7] == op;
  }

  /** The nine blocks of a bundle implement nine different traits, so none
      conflicts with another. */
  lemma BundleTraitsDistinct(ast: DeriveInput)
    requires ast.data.Struct?
    ensures forall i, j :: 0 <= i < j < 9 ==>
      DeriveAll(ast).value[i].traitName != DeriveAll(ast).value[j].traitName
  {
    var blocks := DeriveAll(ast).value;
    forall i, j | 0 <= i < j < 9
      ensures blocks[i].traitName != blocks[j].traitName
    {
      BundleOrderIsComplete(Add);
      if j < 8 {
        TraitNamesDistinct(BundleOrder[i], BundleOrder[j]);
      } else {
        TraitNamesDistinct(BundleOrder[i], BundleOrder[i]);
      }
    }
  }

  /** The `Neg` block of the bundle is the block `derive_neg` emits. */
  lemma BundleNegIsDeriveNeg(ast: DeriveInput)
    ensures DeriveAll(ast).Ok? <==> DeriveNeg(ast).Ok?
    ensures DeriveAll(ast).Ok? ==> DeriveAll(ast).value[8] == DeriveNeg(ast).value
  {
  }

  /** The names under which the derives are offered. */
  datatype Derive =
    | AutoAdd | AutoSub | AutoMul | AutoDiv
    | AutoAddAssign | AutoSubAssign | AutoMulAssign | AutoDivAssign
    | AutoNeg | AutoAll

  function Single(r: Result<ImplBlock>): Result<seq<ImplBlock>> {
    match r
    case Panic(msg) => Panic(msg)
    case Ok(b) => Ok([b])
  }

  /** The expansion of `#[derive(d)]` on `ast`. */
  function Expand(d: Derive, ast: DeriveInput): (r: Result<seq<ImplBlock>>)
    ensures r.Ok? <==> ast.data.Struct?
    ensures r.Panic? ==> r.msg == NotAStruct
    ensures r.Ok? ==> |r.value| == if d == AutoAll then 9 else 1
    ensures d == AutoAdd ==> r == Single(Complete(ast, Add))
    ensures d == AutoSub ==> r == Single(Complete(ast, Sub))
    ensures d == AutoMul ==> r == Single(Complete(ast, Mul))
    ensures d == AutoDiv ==> r == Single(Complete(ast, Div))
    ensures d == AutoAddAssign ==> r == Single(Complete(ast, AddAssign))
    ensures d == AutoSubAssign ==> r == Single(Complete(ast, SubAssign))
    ensures d == AutoMulAssign ==> r == Single(Complete(ast, MulAssign))
    ensures d == AutoDivAssign ==> r == Single(Complete(ast, DivAssign))
    ensures d == AutoNeg ==> r == Single(DeriveNeg(ast))
    ensures d == AutoAll ==> r == DeriveAll(ast)
  {
    match d
    case AutoAdd => Single(Complete(ast, Add))
    case AutoSub => Single(Complete(ast, Sub))
    case AutoMul => Single(Complete(ast, Mul))
    case AutoDiv => Single(Complete(ast, Div))
    case AutoAddAssign => Single(Complete(ast, AddAssign))
    case AutoSubAssign => Single(Complete(ast, SubAssign))
    case AutoMulAssign => Single(Complete(ast, MulAssign))
    case AutoDivAssign => Single(Complete(ast, DivAssign))
    case AutoNeg => Single(DeriveNeg(ast))
    case AutoAll => DeriveAll(ast)
  }

  /** The operation a single binary derive requests. */
  function OpOf(d: Derive): Op
    requires d != AutoNeg && d != AutoAll
  {
    match d
    case AutoAdd => Add
    case AutoSub => Sub
    case AutoMul => Mul
    case AutoDiv => Div
    case AutoAddAssign => AddAssign
    case AutoSubAssign => SubAssign
    case AutoMulAssign => MulAssign
    case AutoDivAssign => DivAssign
  }

  /** Every block a single-operation derive emits is also in the bundle. */
  lemma ExpandIsInBundle(d: Derive, ast: DeriveInput)
    requires d != AutoAll && ast.data.Struct?
    ensures Expand(d, ast).value[0] in DeriveAll(ast).value
  {
    var all := DeriveAll(ast).value;
    if d == AutoNeg {
      assert all[8] == Expand(d, ast).value[0];
    } else {
      var op := OpOf(d);
      assert Expand(d, ast) == Single(Complete(ast, op));
      BundleOrderIsComplete(op);
      var k :| 0 <= k < 8 && BundleOrder[k] == op;
      assert all[k] == Expand(d, ast).value[0];
    }
  }
}
