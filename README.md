# ops_derive2, modelled in Dafny

`ops_derive2` is a Rust procedural-macro crate. Put on a struct, its derives
(`AutoAdd`, `AutoSub`, `AutoMul`, `AutoDiv`, their `*Assign` forms, `AutoNeg`
and `AutoAll`) generate field-wise operator implementations. A binary block is
generic over any `T: Into<Self>`. It converts `rhs` once and then combines
field `f` of `self` with field `f` of the converted value.

This project models the generator's core, `src/lib.rs`, as plain data and
functions:

- `Parsing`: the derive input as a datatype, and `parse` as a method with a
  loop (`Parse`) proved equal to a pure function (`Extract`). A named field
  yields its name. An unnamed field yields its 0-based position. Anything
  but a struct panics with "Expected a struct!".
- `Ast`: the emitted `impl` block as abstract syntax (`ImplBlock`) rather
  than token text.
- `Ops`: the eight-variant `Ops` enum and its table: trait name, method
  header, operator, `type Output = Self;` and `*self =`.
- `Synthesis`: `complete_internal`, the hard-coded `Neg` template,
  `complete`, `derive_neg`, `derive_all` and the derive entry points
  (`Expand`).
- `Semantics`: an evaluator over integer-valued records. It gives a block
  meaning, so the field-wise result, the single conversion, and the link
  between assignment and constructive operators can be proved.
- `Scenarios`: the crate's test expectations, proved against the model.

`Neg` is not a variant of `Ops` in the code. It is a separate template,
written out in `derive_neg` and again in `derive_all`. The model follows the
code: `NegBlock` is separate from the table. Both `DeriveNeg` and `DeriveAll`
use that one `NegBlock`, because the two templates in the source are
identical; `BundleNegIsDeriveNeg` then states that the bundle's ninth block
equals what `DeriveNeg` emits.

## Model

| member | source | states |
|---|---|---|
| `Parsing.Enumerate` | src/lib.rs:27-33 | one member per field, in order; the k-th is the field's name, or its position `start + k` when unnamed |
| `Parsing.Extract` | src/lib.rs:17-37 | succeeds exactly on structs, else panics with "Expected a struct!"; keeps the type name; one member per declared field, in order; named fields give their name, unnamed ones their 0-based position |
| `Parsing.Parse` | src/lib.rs:17-37 | the loop that pushes one member per field returns exactly `Extract(ast)` |
| `Parsing.TupleStructMembers` | src/lib.rs:27-33 | a tuple struct with n fields yields exactly the members 0..n-1 |
| `Parsing.NamedStructMembers` | src/lib.rs:28-29 | a struct with named fields yields exactly their names, in declaration order |
| `Parsing.MembersDistinct` | src/lib.rs:25-36 | distinct field names give pairwise distinct members (positions never clash with names or each other) |
| `Ops.Base` | src/lib.rs:167-186 | maps each assignment op to its constructive op, with the same operator, and is the identity on constructive ops |
| `Ops.Table` | src/lib.rs:146-187 | `+` exactly for the traits `Add`/`AddAssign`, `-` for `Sub`/`SubAssign`, `*` for `Mul`/`MulAssign`, `/` for `Div`/`DivAssign`, each op on its own trait and an `*Assign` trait exactly for the assignment ops; each trait's method is its lower-case name (`add`, …, `div_assign`); every header takes `rhs`; `&mut self` and no result exactly for the assignment ops, `self` and `Self::Output` otherwise |
| `Ops.OutputAlias` | src/lib.rs:189-192 | `type Output = Self;` is emitted iff the op is not an assignment op |
| `Ops.Deref` | src/lib.rs:194-197 | `*self =` is emitted iff the op is an assignment op |
| `Ops.AliasXorDeref` | src/lib.rs:189-197 | every op gets exactly one of the output alias and the `*self =` assignment |
| `Ops.AssignRowExtendsBase` | src/lib.rs:147-186 | an assignment row's trait and method names are its constructive row's plus `Assign` / `_assign`, with the same operator |
| `Ops.TraitNamesDistinct` | src/lib.rs:146-187 | distinct ops implement distinct traits, and none of them is `Neg` |
| `Synthesis.Repeat` | src/lib.rs:207-209 | the `#(...)*` repetition gives one entry per member, the k-th for the k-th member |
| `Synthesis.CompleteInternal` | src/lib.rs:145-215 | the block is generic over `T: Into<Name>` and implements the table's trait with its header; it has the output alias iff the op is constructive; its only statement is one `let rhs = rhs.into();`; it assigns to `*self` iff the op is an assignment op; its literal has exactly the entries `m_k: self.m_k OP rhs.m_k`, in member order |
| `Synthesis.NegBlock` | src/lib.rs:83-95 | the `Neg` block is not generic, declares `Output = Self`, takes no `rhs`, has no statements (so no conversion), and returns a literal with the entries `m_k: -self.m_k`, in member order |
| `Synthesis.Complete` | src/lib.rs:140-143 | fails exactly on non-structs; otherwise the block is `complete_internal` on the extracted schema |
| `Synthesis.DeriveNeg` | src/lib.rs:79-97 | fails exactly on non-structs; otherwise the `Neg` block on the extracted schema |
| `Synthesis.DeriveAll` | src/lib.rs:99-138 | fails exactly on non-structs, with nothing emitted; otherwise nine blocks: Add, Sub, Mul, Div, AddAssign, SubAssign, MulAssign, DivAssign, each as `complete_internal` gives it, then `Neg` |
| `Synthesis.BundleOrderIsComplete` | src/lib.rs:103-114 | the bundle order lists each of the eight ops exactly once |
| `Synthesis.BundleTraitsDistinct` | src/lib.rs:115-136 | the nine blocks of a bundle implement nine different traits |
| `Synthesis.BundleNegIsDeriveNeg` | src/lib.rs:125-135 | the bundle's ninth block is exactly the block `derive_neg` emits |
| `Synthesis.Expand` | src/lib.rs:39-77 | each derive fails exactly on non-structs; `AutoAdd` … `AutoDivAssign` each emit the one block `complete` gives for their own op, `AutoNeg` the one block of `derive_neg`, and `AutoAll` the nine blocks of `derive_all` |
| `Synthesis.ExpandIsInBundle` | src/lib.rs:39-138 | the block of every single-op derive is also one of the bundle's blocks |
| `Semantics.TruncDiv` | src/lib.rs:165 | integer `/` rounds toward zero: magnitude is the quotient of magnitudes, and a non-zero result is positive iff the operands have the same sign |
| `Semantics.Apply` | src/lib.rs:206-210 | `+`, `-`, `*` give the sum, difference and product; `/` by a non-zero divisor gives the quotient rounded toward zero (`TruncDiv`); the only failure is `/` by zero |
| `Semantics.EvalRepeat` | src/lib.rs:206-210 | a repeated literal fails iff some member's entry fails; otherwise it maps each member to the value of its entry |
| `Semantics.EvalBinaryEntry` | src/lib.rs:208 | `self.f OP rhs.f` reads field `f` of both operands and applies the operator |
| `Semantics.EvalNegEntry` | src/lib.rs:90 | `-self.f` reads field `f` of the receiver and negates it |
| `Semantics.BinarySemantics` | src/lib.rs:199-213 | a binary block calls the conversion exactly once, whatever the field count; it succeeds iff every field exists and no divisor is zero; it returns the field-wise combination of `self` and the converted argument and leaves `self` alone, or for an assignment op stores that combination in `self` and returns nothing |
| `Semantics.NegSemantics` | src/lib.rs:87-93 | the `Neg` block never converts; it succeeds iff every field exists, and returns each field negated |
| `Semantics.AssignMatchesConstructive` | src/lib.rs:194-210 | after an assignment op, `self` is exactly what the constructive op returns on the same operands, with the same number of conversions |
| `Semantics.FieldWiseInOrder` | src/lib.rs:206-210 | read in declaration order, the k-th result value is the operator applied to the k-th values of the operands |
| `Semantics.LayoutIndependent` | src/lib.rs:27-33 | a tuple struct and a named struct of the same length, given equal values in declaration order, produce equal results in declaration order |
| `Scenarios.PointAdd` | tests/example.rs:14-18 | `#[derive(AutoAdd)]` on `Point(u32, u32, u32)` implements `Add::add`, and `Point(1,2,3) + Point(4,5,6) == Point(5,7,9)`, with one conversion |
| `Scenarios.TupleVector2Add` | tests/main.rs:3-11 | with `AutoAll` on `Vector2(i32, i32)`, the first block implements `Add` and `(5,5) + (6,2) == (11,7)` |
| `Scenarios.TupleVector3Add` | tests/main.rs:13-21 | with `AutoAll` on `Vector3(i32, i32, i32)`: `(5,5,2) + (6,2,8) == (11,7,10)` |
| `Scenarios.StructVector2Add` | tests/main.rs:23-34 | with `AutoAll` on `Vector2 { x, y }`: `{5,5} + {6,2} == {11,7}` |
| `Scenarios.StructVector2AddAssign` | src/lib.rs:194-210 | the bundle's `AddAssign::add_assign` on `Vector2 { x, y }` leaves `{11,7}` in a receiver `{5,5}` after `+= {6,2}`, and returns nothing |
| `Scenarios.StructVector2Neg` | src/lib.rs:125-135 | the bundle's `Neg::neg` on `Vector2 { x, y }`: `-{5,5} == {-5,-5}`, with no conversion |
| `Scenarios.StructVector3Add` | tests/main.rs:36-48 | with `AutoAll` on `Vector3 { x, y, z }`: `{5,5,2} + {6,2,8} == {11,7,10}` |
| `Scenarios.ConvertedAdd` | tests/main.rs:61-69 | the `Add` block for `Position` converts a `Vector2(1,0)` into `Position(1,0)` and adds it to `Position(0,0)` |
| `Scenarios.CrossTypeAdd` | tests/main.rs:50-70 | with `AutoAll` on `Position`: `Position(0,0) + Vector2(1,0) == Position(1,0)` through the `From<Vector2>` conversion, called once |
| `Scenarios.EnumRejected` | src/lib.rs:19-23 | every derive on an enum panics with "Expected a struct!" and emits nothing |

## Left out

- Token handling is not modelled: `proc_macro` / `proc_macro2` token streams, `quote!` rendering, `syn` parsing (`parse_macro_input!`, `DeriveInput`), spans and hygiene. They are foreign libraries. The input is the `DeriveInput` datatype and the output is the `ImplBlock` syntax tree.
- The `#[proc_macro_derive]` attribute wiring is not modelled. `Expand` stands for the ten entry points; its contract states which generator function each derive calls.
- A panic is modelled as a `Panic` result carrying its message. The compile error the panic becomes is not modelled.
- Rust type checking of the emitted code is not modelled. The generator does not check whether a field type supports the operator or the `Into` conversion.
- The evaluator treats an access to a missing field as a failure of the call. Rust would reject that code at compile time.
- Generics and where-clauses of the input struct are not modelled. `parse` ignores them, so the model's input omits them.
- Field types are not modelled, because the generator never reads them. Every record field holds an unbounded integer: `i32`/`u32` overflow panics and floating-point fields are not modelled.
- Division by zero is modelled as a panic. The overflow of `MIN / -1` is not modelled.
- Division's remainder is not modelled. `TruncDiv` states the magnitude and sign of the quotient but not the relation `x == q*y + r`, so as to keep nonlinear arithmetic out of the proofs.
- The `From` impls in the tests are user code, not generator code. They appear only as conversion functions passed to the evaluator (`Same`, `PositionFromVector2`).
- Names are modelled without path qualification. `::std::ops::Add` is the trait name `Add`, and the method header is a `FnHeader` value rather than tokens.
