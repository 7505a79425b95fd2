/**
 * Schema extraction: a derive input becomes the type's name and the ordered
 * list of members that the generated code names as `self.<member>`.
 */
module Parsing {
  import opened Wrappers

  type Ident = string

  /** One declared field; `ident` is `None` for a field of a tuple struct. */
  datatype Field = Field(ident: Option<Ident>)

  /** The body of a declaration, as the syntax reader delivers it. */
  datatype Data =
    | Struct(fields: seq<Field>)
    | Enum(variants: seq<Ident>)
    | Union(unionFields: seq<Field>)

  datatype DeriveInput = DeriveInput(ident: Ident, data: Data)

  /** How a field is spliced into generated code: its name, or its position
      as an unsuffixed integer literal (`self.0`, `self.1`, ...). */
  datatype Member = Named(name: Ident) | Unnamed(index: nat)

  datatype Schema = Schema(name: Ident, members: seq<Member>)

  const NotAStruct: string := "Expected a struct!"

  /** The member the field at position `id` contributes. */
  function MemberOf(field: Field, id: nat): Member {
    if field.ident.Some? then Named(field.ident.value) else Unnamed(id)
  }

  /** The members of `fields`, numbering positions from `start`. */
  function Enumerate(fields: seq<Field>, start: nat): (r: seq<Member>)
    ensures |r| == |fields|
    ensures forall k :: 0 <= k < |fields| ==> r[k] == MemberOf(fields[k], start + k)
  {
    if fields == [] then [] else [MemberOf(fields[0], start)] + Enumerate(fields[1..], start + 1)
  }

  /** The schema of a declaration; anything but a struct panics. */
  function Extract(ast: DeriveInput): (r: Result<Schema>)
    ensures r.Ok? <==> ast.data.Struct?
    ensures r.Panic? ==> r.msg == NotAStruct
    ensures ast.data.Struct? ==>
      r.value.name == ast.ident && |r.value.members| == |ast.data.fields|
    ensures ast.data.Struct? ==>
      forall k :: 0 <= k < |ast.data.fields| ==> r.value.members[k] == MemberOf(ast.data.fields[k], k)
  {
    match ast.data
    case Struct(fields) => Ok(Schema(ast.ident, Enumerate(fields, 0)))
    case _ => Panic(NotAStruct)
  }

  /** `parse`: builds the member list field by field, pushing one member per
      declared field in declaration order. */
  method Parse(ast: DeriveInput) returns (r: Result<Schema>)
    ensures r == Extract(ast)
  {
    if !ast.data.Struct? {
      return Panic(NotAStruct);
    }
    var structFields := ast.data.fields;
    var fieldNames: seq<Member> := [];
    for id := 0 to |structFields|
      invariant |fieldNames| == id
      invariant forall k :: 0 <= k < id ==> fieldNames[k] == MemberOf(structFields[k], k)
    {
      var field := structFields[id];
      if field.ident.Some? {
        fieldNames := fieldNames + [Named(field.ident.value)];
      } else {
        fieldNames := fieldNames + [Unnamed(id)];
      }
    }
    assert fieldNames == Enumerate(structFields, 0);
    r := Ok(Schema(ast.ident, fieldNames));
  }

  /** A tuple struct with n fields yields exactly the members 0, 1, ..., n-1. */
  lemma TupleStructMembers(ast: DeriveInput)
    requires ast.data.Struct?
    requires forall k :: 0 <= k < |ast.data.fields| ==> ast.data.fields[k].ident.None?
    ensures Extract(ast).value.members == seq(|ast.data.fields|, k requires 0 <= k => Unnamed(k))
  {
  }

  /** A struct with named fields yields their names, in declaration order. */
  lemma NamedStructMembers(ast: DeriveInput)
    requires ast.data.Struct?
    requires forall k :: 0 <= k < |ast.data.fields| ==> ast.data.fields[k].ident.Some?
    ensures Extract(ast).value.members == seq(|ast.data.fields|, k requires 0 <= k < |ast.data.fields| => Named(ast.data.fields[k].ident.value))
  {
  }

  /** Distinct declared names (which the compiler enforces) give distinct members. */
  lemma MembersDistinct(ast: DeriveInput)
    requires ast.data.Struct?
    requires forall i, j :: 0 <= i < j < |ast.data.fields| && ast.data.fields[i].ident.Some? ==>
      ast.data.fields[i].ident != ast.data.fields[j].ident
    ensures forall i, j :: 0 <= i < j < |Extract(ast).value.members| ==>
      Extract(ast).value.members[i] != Extract(ast).value.members[j]
  {
  }
}
