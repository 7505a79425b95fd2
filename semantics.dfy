/**
 * A meaning for generated blocks over integer-valued records, so that what
 * the generated operators compute can be stated and proved.
 */
module Semantics {
  import opened Wrappers
  import opened Parsing
  import opened Ast
  import opened Ops
  import opened Synthesis

  /** A value of a struct type: its type name and its field values. */
  datatype Record = Record(ty: Ident, fields: map<Member, int>)

  /** What a call leaves behind: the returned value (none for an assignment
      operator), the receiver afterwards, and how often `into` was called. */
  datatype Outcome = Outcome(returned: Option<Record>, selfAfter: Record, conversions: nat)

  const DivideByZero: string := "attempt to divide by zero"
  const NoSuchField: string := "no such field"
  const ArityMismatch: string := "wrong number of arguments"

  function Abs(x: int): nat { if x < 0 then -x else x }

  /** Integer division rounding toward zero, as the generated `/` does. */
  function TruncDiv(x: int, y: int): (q: int)
    requires y != 0
    ensures Abs(q) == Abs(x) / Abs(y)
    ensures q != 0 ==> (q > 0 <==> (x > 0) == (y > 0))
  {
    var d := Abs(x) / Abs(y);
    assert x == 0 ==> d == 0;
    if (x < 0) == (y < 0) then d else -d
  }

  /** One field-level operator application; dividing by zero panics. */
  function Apply(sym: Symbol, x: int, y: int): (r: Result<int>)
    ensures r.Panic? <==> sym == Slash && y == 0
    ensures sym == Plus ==> r == Ok(x + y)
    ensures sym == Minus ==> r == Ok(x - y)
    ensures sym == Star ==> r == Ok(x * y)
    ensures sym == Slash && y != 0 ==> r == Ok(TruncDiv(x, y))
  {
    match sym
    case Plus => Ok(x + y)
    case Minus => Ok(x - y)
    case Star => Ok(x * y)
    case Slash => if y == 0 then Panic(DivideByZero) else Ok(TruncDiv(x, y))
  }

  function EvalExpr(e: Expr, recv: Record, locals: map<Ident, Record>): Result<int> {
    match e
    case FieldOf(SelfValue, m) =>
      if m in recv.fields then Ok(recv.fields[m]) else Panic(NoSuchField)
    case FieldOf(Local(x), m) =>
      if x in locals && m in locals[x].fields then Ok(locals[x].fields[m]) else Panic(NoSuchField)
    case Binary(sym, l, r) =>
      (match EvalExpr(l, recv, locals)
       case Panic(msg) => Panic(msg)
       case Ok(u) =>
         match EvalExpr(r, recv, locals)
         case Panic(msg) => Panic(msg)
         case Ok(v) => Apply(sym, u, v))
    case Negate(x) =>
      match EvalExpr(x, recv, locals)
      case Panic(msg) => Panic(msg)
      case Ok(v) => Ok(-v)
  }

  /** The fields of a struct literal, evaluated left to right. */
  function EvalInits(inits: seq<FieldInit>, recv: Record, locals: map<Ident, Record>): Result<map<Member, int>> {
    if inits == [] then Ok(map[])
    else
      match EvalExpr(inits[0].value, recv, locals)
      case Panic(msg) => Panic(msg)
      case Ok(v) =>
        match EvalInits(inits[1..], recv, locals)
        case Panic(msg) => Panic(msg)
        case Ok(m) => Ok(m[inits[0].member := v])
  }

  /** Runs the statements, applying the conversion once per `into` call;
      yields the bindings and the number of conversions. */
  function RunStmts(stmts: seq<Stmt>, locals: map<Ident, Record>, conv: Record -> Record): Result<(map<Ident, Record>, nat)> {
    if stmts == [] then Ok((locals, 0))
    else if stmts[0].source !in locals then Panic(NoSuchField)
    else
      var next := locals[stmts[0].binding := conv(locals[stmts[0].source])];
      match RunStmts(stmts[1..], next, conv)
      case Panic(msg) => Panic(msg)
      case Ok((env, n)) => Ok((env, n + 1))
  }

  /** Calls the block's method on receiver `recv` with argument `arg`; `conv`
      is the `Into` conversion the caller's argument type supplies. */
  function Invoke(b: ImplBlock, recv: Record, arg: Option<Record>, conv: Record -> Record): Result<Outcome> {
    if b.header.hasRhs != arg.Some? then Panic(ArityMismatch)
    else
      var params := if arg.Some? then map[Rhs := arg.value] else map[];
      match RunStmts(b.body.stmts, params, conv)
      case Panic(msg) => Panic(msg)
      case Ok((env, n)) => Finish(b.body.tail, recv, EvalInits(b.body.tail.lit.inits, recv, env), n)
  }

  /** The effect of the method's final expression, given its evaluated fields. */
  function Finish(tail: Tail, recv: Record, fields: Result<map<Member, int>>, n: nat): Result<Outcome> {
    match fields
    case Panic(msg) => Panic(msg)
    case Ok(m) =>
      var rec := Record(tail.lit.path, m);
      if tail.AssignSelf? then Ok(Outcome(None, rec, n)) else Ok(Outcome(Some(rec), recv, n))
  }

  /** A call whose statements run to completion ends in its tail. */
  lemma InvokeSteps(b: ImplBlock, recv: Record, arg: Option<Record>, conv: Record -> Record,
                    env: map<Ident, Record>, n: nat)
    requires b.header.hasRhs == arg.Some?
    requires RunStmts(b.body.stmts, if arg.Some? then map[Rhs := arg.value] else map[], conv) == Ok((env, n))
    ensures Invoke(b, recv, arg, conv) == Finish(b.body.tail, recv, EvalInits(b.body.tail.lit.inits, recv, env), n)
  {
  }

  /** Every member is a field of both operands and the operator is defined on
      each pair (no division by zero). */
  ghost predicate Combinable(sym: Symbol, a: Record, c: Record, members: seq<Member>) {
    forall m :: m in members ==>
      m in a.fields && m in c.fields && Apply(sym, a.fields[m], c.fields[m]).Ok?
  }

  /** Reference definition of the field-wise combination. */
  ghost function FieldWise(sym: Symbol, a: Record, c: Record, members: seq<Member>): map<Member, int>
    requires Combinable(sym, a, c, members)
  {
    map m | m in members :: Apply(sym, a.fields[m], c.fields[m]).value
  }

  /** The value one template entry for member `m` evaluates to. */
  function EntryValue(e: Entry, m: Member, recv: Record, locals: map<Ident, Record>): Result<int> {
    EvalExpr(EntryFor(e, m).value, recv, locals)
  }

  /** Evaluating a repeated entry evaluates each member's entry, in order. */
  lemma {:induction false} EvalRepeat(e: Entry, members: seq<Member>, recv: Record, locals: map<Ident, Record>)
    ensures var r := EvalInits(Repeat(e, members), recv, locals);
      (r.Ok? <==> forall m :: m in members ==> EntryValue(e, m, recv, locals).Ok?) &&
      (r.Ok? ==> r.value == map m | m in members :: EntryValue(e, m, recv, locals).value)
    decreases |members|
  {
    if members != [] {
      var inits, rest := Repeat(e, members), members[1..];
      assert inits[0] == EntryFor(e, members[0]);
      assert inits[1..] == Repeat(e, rest);
      EvalRepeat(e, rest, recv, locals);
      var v := EntryValue(e, members[0], recv, locals);
      var tail := EvalInits(Repeat(e, rest), recv, locals);
      assert forall m :: m in members <==> m == members[0] || m in rest;
      if v.Ok? && tail.Ok? {
        assert EvalInits(inits, recv, locals) == Ok(tail.value[members[0] := v.value]);
        var want := map m | m in members :: EntryValue(e, m, recv, locals).value;
        assert tail.value[members[0] := v.value].Keys == want.Keys;
      }
    }
  }

  /** One binary entry reads both operands' field and applies the operator. */
  lemma EvalBinaryEntry(sym: Symbol, m: Member, a: Record, c: Record)
    ensures EntryValue(BinaryEntry(sym), m, a, map[Rhs := c]) ==
      if m in a.fields && m in c.fields then Apply(sym, a.fields[m], c.fields[m]) else Panic(NoSuchField)
  {
    var locals := map[Rhs := c];
    var lhs, rhs := FieldOf(SelfValue, m), FieldOf(Local(Rhs), m);
    assert EntryFor(BinaryEntry(sym), m).value == Binary(sym, lhs, rhs);
    assert EvalExpr(lhs, a, locals) == if m in a.fields then Ok(a.fields[m]) else Panic(NoSuchField);
    assert EvalExpr(rhs, a, locals) == if m in c.fields then Ok(c.fields[m]) else Panic(NoSuchField);
  }

  /** A generated binary block converts its argument exactly once, and returns
      (or, for an assignment operator, stores into `self`) the field-wise
      combination of `self` and the converted argument; it fails exactly when
      a field is missing or a divisor is zero. */
  lemma BinarySemantics(name: Ident, members: seq<Member>, op: Op, a: Record, arg: Record, conv: Record -> Record)
    ensures var out := Invoke(CompleteInternal(name, members, op), a, Some(arg), conv);
      var sym := Table(op).symbol;
      (out.Ok? <==> Combinable(sym, a, conv(arg), members)) &&
      (out.Ok? ==>
        var res := Record(name, FieldWise(sym, a, conv(arg), members));
        out.value == if IsAssign(op) then Outcome(None, res, 1) else Outcome(Some(res), a, 1))
  {
    var b := CompleteInternal(name, members, op);
    var sym := Table(op).symbol;
    var c := conv(arg);
    var locals := map[Rhs := c];
    var st := [LetInto(Rhs, Rhs)];
    assert st[1..] == [];
    assert map[Rhs := arg][Rhs := c] == locals;
    assert RunStmts(st[1..], locals, conv) == Ok((locals, 0));
    assert RunStmts(b.body.stmts, map[Rhs := arg], conv) == Ok((locals, 1));
    InvokeSteps(b, a, Some(arg), conv, locals, 1);
    assert b.body.tail.lit.inits == Repeat(BinaryEntry(sym), members);
    EvalRepeat(BinaryEntry(sym), members, a, locals);
    forall m | m in members {
      EvalBinaryEntry(sym, m, a, c);
    }
    var r := EvalInits(b.body.tail.lit.inits, a, locals);
    assert r.Ok? <==> Combinable(sym, a, c, members);
    if r.Ok? {
      var fw := FieldWise(sym, a, c, members);
      assert r.value.Keys == fw.Keys;
      assert r.value == fw;
      var res := Record(name, fw);
      if IsAssign(op) {
        assert Finish(b.body.tail, a, r, 1) == Ok(Outcome(None, res, 1));
      } else {
        assert Finish(b.body.tail, a, r, 1) == Ok(Outcome(Some(res), a, 1));
      }
    }
  }

  /** One `Neg` entry reads the receiver's field and negates it. */
  lemma EvalNegEntry(m: Member, a: Record)
    ensures EntryValue(NegEntry, m, a, map[]) ==
      if m in a.fields then Ok(-a.fields[m]) else Panic(NoSuchField)
  {
    var field := FieldOf(SelfValue, m);
    assert EntryFor(NegEntry, m).value == Negate(field);
    assert EvalExpr(field, a, map[]) == if m in a.fields then Ok(a.fields[m]) else Panic(NoSuchField);
  }

  /** The generated `Neg` never converts and returns each field negated. */
  lemma NegSemantics(name: Ident, members: seq<Member>, a: Record, conv: Record -> Record)
    ensures var out := Invoke(NegBlock(name, members), a, None, conv);
      (out.Ok? <==> forall m :: m in members ==> m in a.fields) &&
      (out.Ok? ==>
        out.value == Outcome(Some(Record(name, map m | m in members :: -a.fields[m])), a, 0))
  {
    var b := NegBlock(name, members);
    var none: map<Ident, Record> := map[];
    assert RunStmts(b.body.stmts, none, conv) == Ok((none, 0));
    InvokeSteps(b, a, None, conv, none, 0);
    assert b.body.tail.lit.inits == Repeat(NegEntry, members);
    EvalRepeat(NegEntry, members, a, none);
    forall m | m in members {
      EvalNegEntry(m, a);
    }
    var r := EvalInits(b.body.tail.lit.inits, a, none);
    assert r.Ok? <==> forall m :: m in members ==> m in a.fields;
    if r.Ok? {
      var neg := map m | m in members :: -a.fields[m];
      assert r.value.Keys == neg.Keys;
      forall m | m in members ensures r.value[m] == neg[m] { EvalNegEntry(m, a); }
      assert r.value == neg;
      assert Finish(b.body.tail, a, r, 0) == Ok(Outcome(Some(Record(name, neg)), a, 0));
    }
  }

  /** After an assignment operator, `self` holds exactly what the
      corresponding constructive operator returns on the same operands. */
  lemma AssignMatchesConstructive(name: Ident, members: seq<Member>, op: Op, a: Record, arg: Record, conv: Record -> Record)
    requires IsAssign(op)
    ensures var x := Invoke(CompleteInternal(name, members, op), a, Some(arg), conv);
      var y := Invoke(CompleteInternal(name, members, Base(op)), a, Some(arg), conv);
      (x.Ok? <==> y.Ok?) &&
      (x.Ok? ==> x.value.returned == None && y.value.returned == Some(x.value.selfAfter)
                 && y.value.selfAfter == a && x.value.conversions == y.value.conversions)
  {
    AssignRowExtendsBase(op);
    BinarySemantics(name, members, op, a, arg, conv);
    BinarySemantics(name, members, Base(op), a, arg, conv);
  }

  /** The field values of `r`, in the order of `members`. */
  function ValuesInOrder(r: Record, members: seq<Member>): (vs: seq<int>)
    requires forall m :: m in members ==> m in r.fields
    ensures |vs| == |members|
    ensures forall k :: 0 <= k < |members| ==> vs[k] == r.fields[members[k]]
  {
    seq(|members|, k requires 0 <= k < |members| => r.fields[members[k]])
  }

  /** Combinability and the field-wise result, read in declaration order. */
  lemma FieldWiseInOrder(sym: Symbol, name: Ident, a: Record, c: Record, members: seq<Member>)
    requires forall m :: m in members ==> m in a.fields && m in c.fields
    ensures var va, vc := ValuesInOrder(a, members), ValuesInOrder(c, members);
      (Combinable(sym, a, c, members) <==> forall k :: 0 <= k < |members| ==> Apply(sym, va[k], vc[k]).Ok?) &&
      (Combinable(sym, a, c, members) ==> forall k :: 0 <= k < |members| ==>
        ValuesInOrder(Record(name, FieldWise(sym, a, c, members)), members)[k] == Apply(sym, va[k], vc[k]).value)
  {
    var va, vc := ValuesInOrder(a, members), ValuesInOrder(c, members);
    if forall k :: 0 <= k < |members| ==> Apply(sym, va[k], vc[k]).Ok? {
      forall m | m in members ensures Apply(sym, a.fields[m], c.fields[m]).Ok? {
        var k :| 0 <= k < |members| && members[k] == m;
        assert Apply(sym, va[k], vc[k]).Ok?;
      }
    }
  }

  /** Field names play no part: two schemas of the same length (a tuple struct
      and a named one, say) given operands with equal values in declaration
      order produce results with equal values in declaration order. */
  lemma LayoutIndependent(op: Op, n1: Ident, ms1: seq<Member>, a1: Record, b1: Record, conv1: Record -> Record,
                          n2: Ident, ms2: seq<Member>, a2: Record, b2: Record, conv2: Record -> Record)
    requires !IsAssign(op)
    requires forall m :: m in ms1 ==> m in a1.fields && m in conv1(b1).fields
    requires forall m :: m in ms2 ==> m in a2.fields && m in conv2(b2).fields
    requires ValuesInOrder(a1, ms1) == ValuesInOrder(a2, ms2)
    requires ValuesInOrder(conv1(b1), ms1) == ValuesInOrder(conv2(b2), ms2)
    ensures var x := Invoke(CompleteInternal(n1, ms1, op), a1, Some(b1), conv1);
      var y := Invoke(CompleteInternal(n2, ms2, op), a2, Some(b2), conv2);
      (x.Ok? <==> y.Ok?) &&
      (x.Ok? ==> (x.value.returned.Some? && y.value.returned.Some? &&
        var rx, ry := x.value.returned.value, y.value.returned.value;
        |ms1| == |ms2| &&
        forall k :: 0 <= k < |ms1| ==>
          ms1[k] in rx.fields && ms2[k] in ry.fields && rx.fields[ms1[k]] == ry.fields[ms2[k]]))
  {
    var sym := Table(op).symbol;
    var c1, c2 := conv1(b1), conv2(b2);
    BinarySemantics(n1, ms1, op, a1, b1, conv1);
    BinarySemantics(n2, ms2, op, a2, b2, conv2);
    FieldWiseInOrder(sym, n1, a1, c1, ms1);
    FieldWiseInOrder(sym, n2, a2, c2, ms2);
    if Combinable(sym, a1, c1, ms1) {
      var r1 := Record(n1, FieldWise(sym, a1, c1, ms1));
      var r2 := Record(n2, FieldWise(sym, a2, c2, ms2));
      assert |ms1| == |ValuesInOrder(a1, ms1)|;
      forall k | 0 <= k < |ms1|
        ensures ms1[k] in r1.fields && ms2[k] in r2.fields && r1.fields[ms1[k]] == r2.fields[ms2[k]]
      {
        assert ValuesInOrder(r1, ms1)[k] == ValuesInOrder(r2, ms2)[k];
      }
    }
  }
}
