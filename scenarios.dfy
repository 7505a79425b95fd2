/**
 * The scenarios exercised by the crate's tests, proved about the model:
 * tuple and named structs, the bundle, cross-type conversion, and an enum.
 */
module Scenarios {
  import opened Wrappers
  import opened Parsing
  import opened Ast
  import opened Ops
  import opened Synthesis
  import opened Semantics

  /** `impl<T> From<T> for T`: the conversion a same-typed argument uses. */
  function Same(r: Record): Record { r }

  function Tuple2(ty: Ident, x: int, y: int): Record {
    Record(ty, map[Unnamed(0) := x, Unnamed(1) := y])
  }

  function Tuple3(ty: Ident, x: int, y: int, z: int): Record {
    Record(ty, map[Unnamed(0) := x, Unnamed(1) := y, Unnamed(2) := z])
  }

  function Named2(ty: Ident, x: int, y: int): Record {
    Record(ty, map[Named("x") := x, Named("y") := y])
  }

  function Named3(ty: Ident, x: int, y: int, z: int): Record {
    Record(ty, map[Named("x") := x, Named("y") := y, Named("z") := z])
  }

  function TupleDecl(name: Ident, n: nat): DeriveInput {
    DeriveInput(name, Struct(seq(n, _ => Field(None))))
  }

  function NamedDecl(name: Ident, names: seq<Ident>): DeriveInput {
    DeriveInput(name, Struct(seq(|names|, k requires 0 <= k < |names| => Field(Some(names[k])))))
  }

  lemma SumTuple2(t1: Ident, t2: Ident, x1: int, y1: int, x2: int, y2: int)
    ensures var ms := [Unnamed(0), Unnamed(1)];
      Combinable(Plus, Tuple2(t1, x1, y1), Tuple2(t2, x2, y2), ms) &&
      FieldWise(Plus, Tuple2(t1, x1, y1), Tuple2(t2, x2, y2), ms) == Tuple2(t1, x1 + x2, y1 + y2).fields
  {
  }

  lemma SumTuple3(t: Ident, x1: int, y1: int, z1: int, x2: int, y2: int, z2: int)
    ensures var ms := [Unnamed(0), Unnamed(1), Unnamed(2)];
      Combinable(Plus, Tuple3(t, x1, y1, z1), Tuple3(t, x2, y2, z2), ms) &&
      FieldWise(Plus, Tuple3(t, x1, y1, z1), Tuple3(t, x2, y2, z2), ms) == Tuple3(t, x1 + x2, y1 + y2, z1 + z2).fields
  {
  }

  lemma SumNamed2(t: Ident, x1: int, y1: int, x2: int, y2: int)
    ensures var ms := [Named("x"), Named("y")];
      Combinable(Plus, Named2(t, x1, y1), Named2(t, x2, y2), ms) &&
      FieldWise(Plus, Named2(t, x1, y1), Named2(t, x2, y2), ms) == Named2(t, x1 + x2, y1 + y2).fields
  {
  }

  lemma NegNamed2(t: Ident, x: int, y: int)
    ensures var ms := [Named("x"), Named("y")];
      (map m | m in ms :: -Named2(t, x, y).fields[m]) == Named2(t, -x, -y).fields
  {
  }

  lemma SumNamed3(t: Ident, x1: int, y1: int, z1: int, x2: int, y2: int, z2: int)
    ensures var ms := [Named("x"), Named("y"), Named("z")];
      Combinable(Plus, Named3(t, x1, y1, z1), Named3(t, x2, y2, z2), ms) &&
      FieldWise(Plus, Named3(t, x1, y1, z1), Named3(t, x2, y2, z2), ms) == Named3(t, x1 + x2, y1 + y2, z1 + z2).fields
  {
  }

  /** The block that `#[derive(AutoAdd)]` emits for `struct Point(u32, u32, u32)`
      adds `Point(1, 2, 3)` and `Point(4, 5, 6)` to `Point(5, 7, 9)`. */
  lemma PointAdd()
    ensures Expand(AutoAdd, TupleDecl("Point", 3)).Ok?
    ensures Expand(AutoAdd, TupleDecl("Point", 3)).value[0].traitName == "Add"
    ensures Expand(AutoAdd, TupleDecl("Point", 3)).value[0].header.name == "add"
    ensures Invoke(Expand(AutoAdd, TupleDecl("Point", 3)).value[0],
                   Tuple3("Point", 1, 2, 3), Some(Tuple3("Point", 4, 5, 6)), Same)
         == Ok(Outcome(Some(Tuple3("Point", 5, 7, 9)), Tuple3("Point", 1, 2, 3), 1))
  {
    var ast := TupleDecl("Point", 3);
    var ms := Extract(ast).value.members;
    assert ms == [Unnamed(0), Unnamed(1), Unnamed(2)];
    var a, b := Tuple3("Point", 1, 2, 3), Tuple3("Point", 4, 5, 6);
    assert Same(b) == b;
    BinarySemantics("Point", ms, Add, a, b, Same);
    SumTuple3("Point", 1, 2, 3, 4, 5, 6);
  }

  /** With every derive on the tuple struct `Vector2(i32, i32)`, the bundle's
      `Add` block adds `(5, 5)` and `(6, 2)` to `(11, 7)`. */
  lemma TupleVector2Add()
    ensures DeriveAll(TupleDecl("Vector2", 2)).Ok?
    ensures DeriveAll(TupleDecl("Vector2", 2)).value[0].traitName == "Add"
    ensures Invoke(DeriveAll(TupleDecl("Vector2", 2)).value[0],
                   Tuple2("Vector2", 5, 5), Some(Tuple2("Vector2", 6, 2)), Same)
         == Ok(Outcome(Some(Tuple2("Vector2", 11, 7)), Tuple2("Vector2", 5, 5), 1))
  {
    var ast := TupleDecl("Vector2", 2);
    var ms := Extract(ast).value.members;
    assert ms == [Unnamed(0), Unnamed(1)];
    var a, b := Tuple2("Vector2", 5, 5), Tuple2("Vector2", 6, 2);
    assert Same(b) == b;
    BinarySemantics("Vector2", ms, Add, a, b, Same);
    SumTuple2("Vector2", "Vector2", 5, 5, 6, 2);
  }

  /** The same for `Vector3(i32, i32, i32)`: `(5, 5, 2) + (6, 2, 8) == (11, 7, 10)`. */
  lemma TupleVector3Add()
    ensures DeriveAll(TupleDecl("Vector3", 3)).Ok?
    ensures Invoke(DeriveAll(TupleDecl("Vector3", 3)).value[0],
                   Tuple3("Vector3", 5, 5, 2), Some(Tuple3("Vector3", 6, 2, 8)), Same)
         == Ok(Outcome(Some(Tuple3("Vector3", 11, 7, 10)), Tuple3("Vector3", 5, 5, 2), 1))
  {
    var ast := TupleDecl("Vector3", 3);
    var ms := Extract(ast).value.members;
    assert ms == [Unnamed(0), Unnamed(1), Unnamed(2)];
    var a, b := Tuple3("Vector3", 5, 5, 2), Tuple3("Vector3", 6, 2, 8);
    assert Same(b) == b;
    BinarySemantics("Vector3", ms, Add, a, b, Same);
    SumTuple3("Vector3", 5, 5, 2, 6, 2, 8);
  }

  /** With every derive on `struct Vector2 { x: i32, y: i32 }`, the bundle's
      `Add` block gives `{x: 5, y: 5} + {x: 6, y: 2} == {x: 11, y: 7}`. */
  lemma StructVector2Add()
    ensures DeriveAll(NamedDecl("Vector2", ["x", "y"])).Ok?
    ensures Invoke(DeriveAll(NamedDecl("Vector2", ["x", "y"])).value[0],
                   Named2("Vector2", 5, 5), Some(Named2("Vector2", 6, 2)), Same)
         == Ok(Outcome(Some(Named2("Vector2", 11, 7)), Named2("Vector2", 5, 5), 1))
  {
    var ast := NamedDecl("Vector2", ["x", "y"]);
    var ms := Extract(ast).value.members;
    assert ms == [Named("x"), Named("y")];
    var a, b := Named2("Vector2", 5, 5), Named2("Vector2", 6, 2);
    assert Same(b) == b;
    BinarySemantics("Vector2", ms, Add, a, b, Same);
    SumNamed2("Vector2", 5, 5, 6, 2);
  }

  /** The bundle's `AddAssign` block leaves `{x: 11, y: 7}` in a receiver
      `{x: 5, y: 5}` after `+= {x: 6, y: 2}`, and returns nothing. */
  lemma StructVector2AddAssign()
    ensures DeriveAll(NamedDecl("Vector2", ["x", "y"])).Ok?
    ensures DeriveAll(NamedDecl("Vector2", ["x", "y"])).value[4].traitName == "AddAssign"
    ensures DeriveAll(NamedDecl("Vector2", ["x", "y"])).value[4].header.name == "add_assign"
    ensures Invoke(DeriveAll(NamedDecl("Vector2", ["x", "y"])).value[4],
                   Named2("Vector2", 5, 5), Some(Named2("Vector2", 6, 2)), Same)
         == Ok(Outcome(None, Named2("Vector2", 11, 7), 1))
  {
    var ast := NamedDecl("Vector2", ["x", "y"]);
    var ms := Extract(ast).value.members;
    assert ms == [Named("x"), Named("y")];
    var a, b := Named2("Vector2", 5, 5), Named2("Vector2", 6, 2);
    assert Same(b) == b;
    assert DeriveAll(ast).value[4] == CompleteInternal("Vector2", ms, AddAssign);
    assert IsAssign(AddAssign) && Table(AddAssign).symbol == Plus;
    BinarySemantics("Vector2", ms, AddAssign, a, b, Same);
    SumNamed2("Vector2", 5, 5, 6, 2);
  }

  /** The bundle's `Neg` block gives `-{x: 5, y: 5} == {x: -5, y: -5}`
      without any conversion. */
  lemma StructVector2Neg()
    ensures DeriveAll(NamedDecl("Vector2", ["x", "y"])).Ok?
    ensures DeriveAll(NamedDecl("Vector2", ["x", "y"])).value[8].traitName == "Neg"
    ensures DeriveAll(NamedDecl("Vector2", ["x", "y"])).value[8].header.name == "neg"
    ensures Invoke(DeriveAll(NamedDecl("Vector2", ["x", "y"])).value[8], Named2("Vector2", 5, 5), None, Same)
         == Ok(Outcome(Some(Named2("Vector2", -5, -5)), Named2("Vector2", 5, 5), 0))
  {
    var ast := NamedDecl("Vector2", ["x", "y"]);
    var ms := Extract(ast).value.members;
    assert ms == [Named("x"), Named("y")];
    var a := Named2("Vector2", 5, 5);
    NegSemantics("Vector2", ms, a, Same);
    NegNamed2("Vector2", 5, 5);
  }

  /** The same for `struct Vector3 { x, y, z }`: `{5, 5, 2} + {6, 2, 8} == {11, 7, 10}`. */
  lemma StructVector3Add()
    ensures DeriveAll(NamedDecl("Vector3", ["x", "y", "z"])).Ok?
    ensures Invoke(DeriveAll(NamedDecl("Vector3", ["x", "y", "z"])).value[0],
                   Named3("Vector3", 5, 5, 2), Some(Named3("Vector3", 6, 2, 8)), Same)
         == Ok(Outcome(Some(Named3("Vector3", 11, 7, 10)), Named3("Vector3", 5, 5, 2), 1))
  {
    var ast := NamedDecl("Vector3", ["x", "y", "z"]);
    var ms := Extract(ast).value.members;
    assert ms == [Named("x"), Named("y"), Named("z")];
    var a, b := Named3("Vector3", 5, 5, 2), Named3("Vector3", 6, 2, 8);
    assert Same(b) == b;
    BinarySemantics("Vector3", ms, Add, a, b, Same);
    SumNamed3("Vector3", 5, 5, 2, 6, 2, 8);
  }

  /** `impl From<Vector2> for Position`, as the test writes it: a new
      `Position` from fields 0 and 1 (a `Vector2` always has both). */
  function PositionFromVector2(v: Record): Record {
    Record("Position", map[Unnamed(0) := if Unnamed(0) in v.fields then v.fields[Unnamed(0)] else 0,
                           Unnamed(1) := if Unnamed(1) in v.fields then v.fields[Unnamed(1)] else 0])
  }

  /** `Position(0, 0) + Vector2(1, 0) == Position(1, 0)`: the `Vector2`
      argument is converted into a `Position` once, then added field-wise. */
  lemma CrossTypeAdd()
    ensures DeriveAll(TupleDecl("Position", 2)).Ok?
    ensures Invoke(DeriveAll(TupleDecl("Position", 2)).value[0],
                   Tuple2("Position", 0, 0), Some(Tuple2("Vector2", 1, 0)), PositionFromVector2)
         == Ok(Outcome(Some(Tuple2("Position", 1, 0)), Tuple2("Position", 0, 0), 1))
  {
    var ast := TupleDecl("Position", 2);
    var ms := Extract(ast).value.members;
    assert ms == [Unnamed(0), Unnamed(1)];
    var a, b := Tuple2("Position", 0, 0), Tuple2("Vector2", 1, 0);
    ConvertedAdd();
  }

  /** The `Add` block for `Position` on the test's operands. */
  lemma ConvertedAdd()
    ensures Invoke(CompleteInternal("Position", [Unnamed(0), Unnamed(1)], Add),
                   Tuple2("Position", 0, 0), Some(Tuple2("Vector2", 1, 0)), PositionFromVector2)
         == Ok(Outcome(Some(Tuple2("Position", 1, 0)), Tuple2("Position", 0, 0), 1))
  {
    var ms := [Unnamed(0), Unnamed(1)];
    var a, b := Tuple2("Position", 0, 0), Tuple2("Vector2", 1, 0);
    assert PositionFromVector2(b) == Tuple2("Position", 1, 0);
    SumTuple2("Position", "Position", 0, 0, 1, 0);
    BinarySemantics("Position", ms, Add, a, b, PositionFromVector2);
  }

  /** Every derive on an enum panics with "Expected a struct!" and emits nothing. */
  lemma EnumRejected(d: Derive)
    ensures Expand(d, DeriveInput("Direction", Enum(["Up", "Down"]))) == Panic(NotAStruct)
  {
  }
}
