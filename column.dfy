/** One storage field of a table (`column.rs`): attribute dispatch, column
    construction with its derived values and defaults, and the per-column
    emitters. */
module Columns {
  import opened Common
  import opened Text

  /** A struct member as the syntax parser supplies it. */
  datatype Member = Member(name: string, ty: string, attributes: seq<Attribute>)

  datatype Column = Column(
    id: string,
    key: bool,
    name: string,
    member: string,
    selector: string,
    attributes: seq<AttributeVariant>,
    ty: string,
    typeDef: TypeDefVariant,
    memberImplName: string)

  /** The collaborators column construction relies on: the keccak hex hash of
      a name, the encoder of an `id(..)` literal into a felt, the quoting of a
      member name, the type-modifier recogniser and folder, and the type
      resolver `get_type_def`. */
  datatype Extractors = Extractors(
    keccakHex: string -> string,
    idToFelt: string -> Result<string>,
    quoted: string -> string,
    isTypeMod: Attribute -> bool,
    applyTypeMod: (TypeMod, Attribute) -> Result<TypeMod>,
    typeDef: (TypeMod, string) -> Result<TypeDefVariant>)

  /** The overrides attribute dispatch collects (`ColumnAttributes`). */
  datatype Overrides = Overrides(typeMod: TypeMod, name: Option<string>, id: Option<string>)

  const NoOverrides := Overrides(TypeMod([]), None, None)

  /** The overrides after some attributes, and what those attributes left for the column. */
  datatype Parsed = Parsed(state: Overrides, emitted: seq<AttributeVariant>)

  /** `single_unnamed_arg`: the value of the one unnamed argument, else an arity error. */
  function SingleUnnamedArg(a: Attribute): Result<string> {
    if |a.args| == 1 && a.args[0].Unnamed? then Ok(a.args[0].value) else Err(AttributeArity(a.path))
  }

  /** `a` is a `path(..)` directive: attribute dispatch reaches the path
      comparison only for attributes that are not type modifiers. */
  predicate IsDirective(ex: Extractors, a: Attribute, path: string) {
    !ex.isTypeMod(a) && a.path == path
  }

  /** One step of attribute dispatch (`parse_attribute`), on values. */
  function ParseStep(ex: Extractors, s: Overrides, a: Attribute): Result<Parsed> {
    if ex.isTypeMod(a) then
      match ex.applyTypeMod(s.typeMod, a)
      case Err(e) => Err(e)
      case Ok(m) => Ok(Parsed(s.(typeMod := m), []))
    else if a.path == "name" then
      match SingleUnnamedArg(a)
      case Err(e) => Err(e)
      case Ok(v) => Ok(Parsed(s.(name := Some(v)), []))
    else if a.path == "id" then
      match SingleUnnamedArg(a)
      case Err(e) => Err(e)
      case Ok(v) =>
        match ex.idToFelt(v)
        case Err(e) => Err(e)
        case Ok(f) => Ok(Parsed(s.(id := Some(f)), []))
    else if a.path == "index" then
      // read as one argument-less attribute named `index`, kept in the residual list
      Ok(Parsed(s, [EmptyIAttribute("index")]))
    else
      Ok(Parsed(s, [Passed(a)]))
  }

  /** Dispatch of every attribute in order from state `s`, stopping at the first error. */
  function ExtractFrom(ex: Extractors, s: Overrides, attrs: seq<Attribute>): Result<Parsed>
    decreases |attrs|
  {
    if attrs == [] then Ok(Parsed(s, []))
    else
      match ParseStep(ex, s, attrs[0])
      case Err(e) => Err(e)
      case Ok(p) =>
        match ExtractFrom(ex, p.state, attrs[1..])
        case Err(e) => Err(e)
        case Ok(q) => Ok(Parsed(q.state, p.emitted + q.emitted))
  }

  /** `extract_attributes` on a member's attribute list. */
  function ExtractAll(ex: Extractors, attrs: seq<Attribute>): Result<Parsed> {
    ExtractFrom(ex, NoOverrides, attrs)
  }

  /** The state of a `ColumnAttributes` parser. */
  class ColumnAttributes {
    var typeMod: TypeMod
    var name: Option<string>
    var id: Option<string>

    constructor ()
      ensures State() == NoOverrides
    {
      typeMod := TypeMod([]);
      name := None;
      id := None;
    }

    function State(): Overrides
      reads this
    {
      Overrides(typeMod, name, id)
    }

    /** `parse_attribute`: a type modifier is tried first and folded into the
        accumulator; `name(..)` and `id(..)` need one unnamed argument and set
        their override (`id` through the felt encoder); `index` leaves an
        empty introspection attribute; every other attribute passes through.
        On an error nothing is changed. */
    method ParseAttribute(ex: Extractors, attribute: Attribute) returns (r: Result<seq<AttributeVariant>>)
      modifies this
      ensures ParseStep(ex, old(State()), attribute).Ok? ==>
        r == Ok(ParseStep(ex, old(State()), attribute).value.emitted) &&
        State() == ParseStep(ex, old(State()), attribute).value.state
      ensures ParseStep(ex, old(State()), attribute).Err? ==>
        r == Err(ParseStep(ex, old(State()), attribute).error) && State() == old(State())
    {
      if ex.isTypeMod(attribute) {
        var m := ex.applyTypeMod(typeMod, attribute);
        if m.Err? {
          return Err(m.error);
        }
        typeMod := m.value;
        return Ok([]);
      }
      if attribute.path == "name" {
        var arg := SingleUnnamedArg(attribute);
        if arg.Err? {
          return Err(arg.error);
        }
        name := Some(arg.value);
        r := Ok([]);
      } else if attribute.path == "id" {
        var arg := SingleUnnamedArg(attribute);
        if arg.Err? {
          return Err(arg.error);
        }
        var felt := ex.idToFelt(arg.value);
        if felt.Err? {
          return Err(felt.error);
        }
        id := Some(felt.value);
        r := Ok([]);
      } else if attribute.path == "index" {
        r := Ok([EmptyIAttribute("index")]);
      } else {
        r := Ok([Passed(attribute)]);
      }
    }
  }

  /** `Prefix(res, r)`: the outcome `r` with `res` emitted before what it emitted. */
  function Prefixed(res: seq<AttributeVariant>, r: Result<Parsed>): Result<Parsed> {
    match r
    case Err(e) => Err(e)
    case Ok(p) => Ok(Parsed(p.state, res + p.emitted))
  }

  lemma PrefixedLaws(res: seq<AttributeVariant>, more: seq<AttributeVariant>, r: Result<Parsed>)
    ensures Prefixed([], r) == r
    ensures Prefixed(res, Prefixed(more, r)) == Prefixed(res + more, r)
  {
    if r.Ok? {
      assert [] + r.value.emitted == r.value.emitted;
      assert res + (more + r.value.emitted) == (res + more) + r.value.emitted;
    }
  }

  /** Runs a fresh `ColumnAttributes` parser over the attributes, collecting
      what each attribute leaves behind and stopping at the first error. */
  method ExtractAttributes(ex: Extractors, attributes: seq<Attribute>) returns (r: Result<Parsed>)
    ensures r == ExtractAll(ex, attributes)
  {
    var parser := new ColumnAttributes();
    var residual: seq<AttributeVariant> := [];
    assert attributes[0..] == attributes;
    PrefixedLaws([], [], ExtractAll(ex, attributes));
    for i := 0 to |attributes|
      invariant ExtractAll(ex, attributes) == Prefixed(residual, ExtractFrom(ex, parser.State(), attributes[i..]))
    {
      ghost var before := parser.State();
      assert attributes[i..][0] == attributes[i];
      assert attributes[i..][1..] == attributes[i + 1..];
      ghost var step := ParseStep(ex, before, attributes[i]);
      var emitted := parser.ParseAttribute(ex, attributes[i]);
      if emitted.Err? {
        assert step.Err?;
        return Err(emitted.error);
      }
      assert step.Ok? && step.value.state == parser.State();
      ghost var rest := ExtractFrom(ex, parser.State(), attributes[i + 1..]);
      assert ExtractFrom(ex, before, attributes[i..]) == Prefixed(emitted.value, rest);
      PrefixedLaws(residual, emitted.value, rest);
      residual := residual + emitted.value;
    }
    assert attributes[|attributes|..] == [];
    assert residual + [] == residual;
    r := Ok(Parsed(parser.State(), residual));
  }

  // ---------------------------------------------------------------------------
  // Reference definitions of what dispatch yields, attribute by attribute.

  /** What an attribute leaves in the residual list: nothing for a type
      modifier, `name(..)` or `id(..)`; an empty introspection attribute for
      `index`; itself for anything else. */
  function Leftover(ex: Extractors, a: Attribute): seq<AttributeVariant> {
    if ex.isTypeMod(a) || a.path == "name" || a.path == "id" then []
    else if a.path == "index" then [EmptyIAttribute("index")]
    else [Passed(a)]
  }

  function Residual(ex: Extractors, attrs: seq<Attribute>): seq<AttributeVariant> {
    if attrs == [] then [] else Leftover(ex, attrs[0]) + Residual(ex, attrs[1..])
  }

  /** The type modifiers folded in order into the accumulator `m`. */
  function TypeModFold(ex: Extractors, m: TypeMod, attrs: seq<Attribute>): Result<TypeMod>
    decreases |attrs|
  {
    if attrs == [] then Ok(m)
    else if ex.isTypeMod(attrs[0]) then
      match ex.applyTypeMod(m, attrs[0])
      case Err(e) => Err(e)
      case Ok(m') => TypeModFold(ex, m', attrs[1..])
    else TypeModFold(ex, m, attrs[1..])
  }

  /** The last `path(..)` directive of the list, if any. */
  function LastDirective(ex: Extractors, attrs: seq<Attribute>, path: string): Option<Attribute> {
    if attrs == [] then None
    else
      var later := LastDirective(ex, attrs[1..], path);
      if later.Some? then later
      else if IsDirective(ex, attrs[0], path) then Some(attrs[0])
      else None
  }

  /** A `name(..)` or `id(..)` directive that dispatch rejects: wrong arity, or
      an `id` literal the felt encoder refuses. */
  predicate DirectiveFails(ex: Extractors, a: Attribute) {
    (IsDirective(ex, a, "name") && SingleUnnamedArg(a).Err?) ||
    (IsDirective(ex, a, "id") &&
      (SingleUnnamedArg(a).Err? || ex.idToFelt(SingleUnnamedArg(a).value).Err?))
  }

  /** The outcome of dispatch, attribute by attribute: it fails exactly when the
      type-modifier fold fails or some `name`/`id` directive is rejected;
      otherwise the accumulator is the fold, each override comes from the last
      directive of its kind (or is left as it was), and the residual list is
      every other attribute in order. */
  lemma {:induction false} ExtractFromSpec(ex: Extractors, s: Overrides, attrs: seq<Attribute>)
    ensures ExtractFrom(ex, s, attrs).Ok? <==>
      TypeModFold(ex, s.typeMod, attrs).Ok? &&
      forall i :: 0 <= i < |attrs| ==> !DirectiveFails(ex, attrs[i])
    ensures ExtractFrom(ex, s, attrs).Ok? ==>
      var p := ExtractFrom(ex, s, attrs).value;
      && p.state.typeMod == TypeModFold(ex, s.typeMod, attrs).value
      && p.emitted == Residual(ex, attrs)
      && (match LastDirective(ex, attrs, "name")
          case None => p.state.name == s.name
          case Some(a) => SingleUnnamedArg(a).Ok? && p.state.name == Some(SingleUnnamedArg(a).value))
      && (match LastDirective(ex, attrs, "id")
          case None => p.state.id == s.id
          case Some(a) =>
            SingleUnnamedArg(a).Ok? && ex.idToFelt(SingleUnnamedArg(a).value).Ok? &&
            p.state.id == Some(ex.idToFelt(SingleUnnamedArg(a).value).value))
    decreases |attrs|
  {
    if attrs != [] {
      var a := attrs[0];
      var tail := attrs[1..];
      assert forall i :: 1 <= i < |attrs| ==> attrs[i] == tail[i - 1];
      match ParseStep(ex, s, a)
      case Err(e) => {
        assert DirectiveFails(ex, a) || TypeModFold(ex, s.typeMod, attrs).Err?;
      }
      case Ok(p) => {
        ExtractFromSpec(ex, p.state, tail);
        assert !DirectiveFails(ex, a);
        assert TypeModFold(ex, s.typeMod, attrs) == TypeModFold(ex, p.state.typeMod, tail);
        assert p.emitted == Leftover(ex, a);
      }
    }
  }

  /** True when the attribute list holds a bare `key` marker (`has_name_only_attribute`). */
  predicate HasNameOnlyAttribute(attrs: seq<Attribute>, path: string) {
    exists i :: 0 <= i < |attrs| && attrs[i].path == path && attrs[i].args == []
  }

  /** `Column::iextract_with`: dispatch the member's attributes, then resolve
      its type; every derived value comes from the member and the struct name. */
  function ExtractColumn(ex: Extractors, member: Member, structName: string): (r: Result<Column>)
    ensures r.Ok? ==>
      && r.value.selector == ex.keccakHex(member.name)
      && r.value.member == member.name
      && r.value.memberImplName == structName + member.name
      && r.value.ty == member.ty
      && (r.value.key <==> HasNameOnlyAttribute(member.attributes, "key"))
  {
    match ExtractAll(ex, member.attributes)
    case Err(e) => Err(e)
    case Ok(p) =>
      var selector := ex.keccakHex(member.name);
      match ex.typeDef(p.state.typeMod, member.ty)
      case Err(e) => Err(e)
      case Ok(td) =>
        Ok(Column(
          id := p.state.id.GetOr(selector),
          key := HasNameOnlyAttribute(member.attributes, "key"),
          name := p.state.name.GetOr(ex.quoted(member.name)),
          member := member.name,
          selector := selector,
          attributes := p.emitted,
          ty := member.ty,
          typeDef := td,
          memberImplName := structName + member.name))
  }

  /** Column construction fails exactly when dispatch fails or the type resolver
      refuses the folded modifiers with the member's type; then no column exists. */
  lemma ExtractColumnFails(ex: Extractors, member: Member, structName: string)
    ensures ExtractColumn(ex, member, structName).Err? <==>
      !TypeModFold(ex, NoOverrides.typeMod, member.attributes).Ok? ||
      (exists i :: 0 <= i < |member.attributes| && DirectiveFails(ex, member.attributes[i])) ||
      ex.typeDef(TypeModFold(ex, NoOverrides.typeMod, member.attributes).value, member.ty).Err?
  {
    ExtractFromSpec(ex, NoOverrides, member.attributes);
  }

  /** The identifier defaults to the selector when no `id(..)` directive is
      present, and is otherwise the encoding of the last directive's literal;
      the selector is the hash of the member name whatever the attributes. */
  lemma ExtractColumnId(ex: Extractors, member: Member, structName: string)
    requires ExtractColumn(ex, member, structName).Ok?
    ensures var c := ExtractColumn(ex, member, structName).value;
      && c.selector == ex.keccakHex(member.name)
      && (LastDirective(ex, member.attributes, "id").None? ==> c.id == c.selector)
      && (LastDirective(ex, member.attributes, "id").Some? ==>
            var arg := SingleUnnamedArg(LastDirective(ex, member.attributes, "id").value);
            arg.Ok? && ex.idToFelt(arg.value) == Ok(c.id))
  {
    ExtractFromSpec(ex, NoOverrides, member.attributes);
    var a := LastDirective(ex, member.attributes, "id");
    if a.Some? {
      LastDirectiveIn(ex, member.attributes, "id");
    }
  }

  /** The display name is the quoted member name when no `name(..)` directive is
      present, and otherwise the literal of the last one. */
  lemma ExtractColumnName(ex: Extractors, member: Member, structName: string)
    requires ExtractColumn(ex, member, structName).Ok?
    ensures var c := ExtractColumn(ex, member, structName).value;
      && (LastDirective(ex, member.attributes, "name").None? ==> c.name == ex.quoted(member.name))
      && (LastDirective(ex, member.attributes, "name").Some? ==>
            var arg := SingleUnnamedArg(LastDirective(ex, member.attributes, "name").value);
            arg.Ok? && c.name == arg.value)
  {
    ExtractFromSpec(ex, NoOverrides, member.attributes);
  }

  /** The residual attributes of a column are the member's non-directive
      attributes in order, `index` reduced to an empty introspection attribute. */
  lemma ExtractColumnAttributes(ex: Extractors, member: Member, structName: string)
    requires ExtractColumn(ex, member, structName).Ok?
    ensures ExtractColumn(ex, member, structName).value.attributes == Residual(ex, member.attributes)
  {
    ExtractFromSpec(ex, NoOverrides, member.attributes);
  }

  lemma {:induction false} LastDirectiveIn(ex: Extractors, attrs: seq<Attribute>, path: string)
    requires LastDirective(ex, attrs, path).Some?
    ensures exists i :: 0 <= i < |attrs| && attrs[i] == LastDirective(ex, attrs, path).value
    ensures IsDirective(ex, LastDirective(ex, attrs, path).value, path)
  {
    var later := LastDirective(ex, attrs[1..], path);
    if later.Some? {
      LastDirectiveIn(ex, attrs[1..], path);
      var j :| 0 <= j < |attrs[1..]| && attrs[1..][j] == later.value;
      assert attrs[j + 1] == later.value;
    } else {
      assert attrs[0] == LastDirective(ex, attrs, path).value;
    }
  }

  // ---------------------------------------------------------------------------
  // Emission of one column.

  /** `serialize_member_call`, without its newline: `withSelf` is the `SELF`
      parameter, which prefixes the member with `self.`. */
  function SerializeMemberCall(c: Column, withSelf: bool): string {
    c.memberImplName + "::serialize_member(" + (if withSelf then "self." else "") + c.member + ", ref data);"
  }

  method WriteSerializeMemberCall(c: Column, withSelf: bool, buf: Writer)
    modifies buf
    ensures buf.text == old(buf.text) + SerializeMemberCall(c, withSelf) + "\n"
  {
    var selfStr := if withSelf then "self." else "";
    buf.WriteLine(c.memberImplName + "::serialize_member(" + selfStr + c.member + ", ref data);");
  }

  /** The constant binding a member name to its column id. */
  function ColumnModLine(c: Column): string {
    "pub const " + c.member + " = " + c.id + ";"
  }

  /** `cwrite_column_mod`. */
  method WriteColumnMod(c: Column, buf: Writer)
    modifies buf
    ensures buf.text == old(buf.text) + "pub const " + c.member + " = " + c.id + ";\n"
    ensures buf.text == old(buf.text) + ColumnModLine(c) + "\n"
  {
    buf.WriteLine("pub const " + c.member + " = " + c.id + ";");
  }

  /** The column definition call: id, then metadata, then type. */
  function ColumnDefText(r: Renderers, c: Column, iPath: string): string {
    iPath + "::serialise_column::<" + c.id + ", _, {[" + r.metaData(c.name, c.attributes) + "]}, "
      + r.writeType(c.ty) + ">(ref table_def, ref children);\n"
  }

  /** `cwrite_column_def`. */
  method WriteColumnDef(r: Renderers, c: Column, buf: Writer, iPath: string)
    modifies buf
    ensures buf.text == old(buf.text) + ColumnDefText(r, c, iPath)
  {
    var head := iPath + "::serialise_column::<" + c.id + ", _, {[";
    var meta := r.metaData(c.name, c.attributes);
    var ty := r.writeType(c.ty);
    buf.Write(head);
    buf.Write(meta);
    ConcatAssoc(old(buf.text), head, meta);
    buf.Write("]}, ");
    ConcatAssoc(old(buf.text), head + meta, "]}, ");
    buf.Write(ty);
    ConcatAssoc(old(buf.text), head + meta + "]}, ", ty);
    buf.Write(">(ref table_def, ref children);\n");
    ConcatAssoc(old(buf.text), head + meta + "]}, " + ty, ">(ref table_def, ref children);\n");
  }

  /** The member binding of a column to the structure implementation. */
  function MemberImplLine(c: Column, iPath: string, structImplName: string): string {
    "pub impl " + c.memberImplName + " = " + iPath + "::MemberImpl<" + structImplName + ", " + c.id + ", " + c.ty + ">;"
  }

  /** `cwrite_member_impl`. */
  method WriteMemberImpl(c: Column, buf: Writer, iPath: string, structImplName: string)
    modifies buf
    ensures buf.text == old(buf.text) + MemberImplLine(c, iPath, structImplName) + "\n"
  {
    buf.WriteLine("pub impl " + c.memberImplName + " = " + iPath + "::MemberImpl<" + structImplName + ", " + c.id + ", " + c.ty + ">;");
  }
}
