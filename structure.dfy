/** The table schema of one struct (`structure.rs`): key-prefix validation,
    promotion of a sole leading key to the primary, assembly of the table with
    its derived names, and the emitters that render it. */
module Structure {
  import opened Common
  import opened Text
  import Columns
  import Pr = Primaries

  type Column = Columns.Column

  /** How a record is identified: by a promoted primary, or by its first
      `size` columns (possibly none). */
  datatype KeyType = Primary(primary: Pr.Primary) | Custom(size: nat)

  /** The struct as the syntax parser supplies it. */
  datatype Struct = Struct(name: string, members: seq<Columns.Member>, attributes: seq<Attribute>)

  datatype TableStructure = TableStructure(
    name: string,
    key: KeyType,
    primary: Pr.Primary,
    columns: seq<Column>,
    attributes: seq<AttributeVariant>,
    implName: string,
    columnsModName: string)

  /** The collaborators table assembly relies on: those of column construction,
      the primary-type test `is_primary_type` on a member's type, the library's
      conversion to a primary-eligible descriptor, and the primary the table
      carries when no column is promoted. */
  datatype Schema = Schema(
    extractors: Columns.Extractors,
    isPrimaryType: string -> bool,
    toPrimary: TypeDefVariant -> Result<Pr.PrimaryTypeDefVariant>,
    fallbackPrimary: Pr.Primary)

  // ---------------------------------------------------------------------------
  // Key-prefix validation.

  /** The number of key columns. */
  function KeyCount(cols: seq<Column>): (k: nat)
    ensures k <= |cols|
    ensures k == |cols| ==> forall i :: 0 <= i < |cols| ==> cols[i].key
  {
    if cols == [] then 0
    else KeyCount(cols[..|cols| - 1]) + (if cols[|cols| - 1].key then 1 else 0)
  }

  /** No key column comes after a non-key column. */
  predicate KeysFormPrefix(cols: seq<Column>) {
    forall i, j :: 0 <= i < j < |cols| && cols[j].key ==> cols[i].key
  }

  /** What `get_keys_index` computes, defined without its loop. */
  function KeysIndex(cols: seq<Column>): Result<nat> {
    if KeysFormPrefix(cols) then Ok(KeyCount(cols)) else Err(KeysNotFirst)
  }

  /** Under the prefix rule, the key columns are exactly the first `KeyCount` ones. */
  lemma {:induction false} PrefixShape(cols: seq<Column>)
    requires KeysFormPrefix(cols)
    ensures forall i :: 0 <= i < KeyCount(cols) ==> cols[i].key
    ensures forall i :: KeyCount(cols) <= i < |cols| ==> !cols[i].key
  {
    if cols != [] {
      var init := cols[..|cols| - 1];
      assert forall i :: 0 <= i < |init| ==> init[i] == cols[i];
      PrefixShape(init);
      if cols[|cols| - 1].key {
        AllKeysCount(init);
      }
    }
  }

  lemma {:induction false} AllKeysCount(cols: seq<Column>)
    requires forall i :: 0 <= i < |cols| ==> cols[i].key
    ensures KeyCount(cols) == |cols|
  {
    if cols != [] {
      var init := cols[..|cols| - 1];
      assert forall i :: 0 <= i < |init| ==> init[i] == cols[i];
      AllKeysCount(init);
    }
  }

  /** `get_keys_index` succeeds exactly when every key column sits at an index
      below the number of key columns; it then returns that number, the columns
      before it are all keys and none after it is. */
  lemma {:induction false} KeysIndexSpec(cols: seq<Column>)
    ensures KeysIndex(cols).Ok? <==> forall i :: 0 <= i < |cols| && cols[i].key ==> i < KeyCount(cols)
    ensures KeysIndex(cols).Ok? ==>
      var k := KeysIndex(cols).value;
      && k == KeyCount(cols) && k <= |cols|
      && (forall i :: 0 <= i < k ==> cols[i].key)
      && (forall i :: k <= i < |cols| ==> !cols[i].key)
  {
    if KeysFormPrefix(cols) {
      PrefixShape(cols);
    } else {
      assert !forall i :: 0 <= i < |cols| && cols[i].key ==> i < KeyCount(cols) by {
        if forall i :: 0 <= i < |cols| && cols[i].key ==> i < KeyCount(cols) {
          KeysBelowCountArePrefix(cols);
        }
      }
    }
  }

  lemma {:induction false} KeysBelowCountArePrefix(cols: seq<Column>)
    requires forall i :: 0 <= i < |cols| && cols[i].key ==> i < KeyCount(cols)
    ensures KeysFormPrefix(cols)
  {
    if cols != [] {
      var init := cols[..|cols| - 1];
      assert forall i :: 0 <= i < |init| ==> init[i] == cols[i];
      if cols[|cols| - 1].key {
        assert KeyCount(init) == |init|;
      } else {
        KeysBelowCountArePrefix(init);
      }
    }
  }

  /** `get_keys_index`: one pass with a counter of the keys seen so far, each
      of which must sit exactly at that position. */
  method GetKeysIndex(columns: seq<Column>) returns (r: Result<nat>)
    ensures r == KeysIndex(columns)
    ensures (exists i, j :: 0 <= i < j < |columns| && !columns[i].key && columns[j].key) ==> r == Err(KeysNotFirst)
  {
    var position: nat := 0;
    for i := 0 to |columns|
      invariant position <= i
      invariant position == KeyCount(columns[..i])
      invariant forall j :: 0 <= j < position ==> columns[j].key
      invariant forall j :: position <= j < i ==> !columns[j].key
    {
      assert columns[..i + 1][..i] == columns[..i];
      if columns[i].key {
        if position == i {
          position := position + 1;
        } else {
          assert !columns[position].key;
          return Err(KeysNotFirst);
        }
      }
    }
    assert columns[..|columns|] == columns;
    return Ok(position);
  }

  // ---------------------------------------------------------------------------
  // Assembly.

  /** `iextracts_with`: every member becomes a column, in order; the first
      member that fails aborts with its error. */
  function ExtractColumns(ex: Columns.Extractors, members: seq<Columns.Member>, structName: string): (r: Result<seq<Column>>)
    ensures r.Ok? <==> forall i :: 0 <= i < |members| ==> Columns.ExtractColumn(ex, members[i], structName).Ok?
    ensures r.Ok? ==>
      && |r.value| == |members|
      && (forall i :: 0 <= i < |members| ==> Columns.ExtractColumn(ex, members[i], structName) == Ok(r.value[i]))
    ensures r.Err? ==>
      exists i ::
        && 0 <= i < |members|
        && Columns.ExtractColumn(ex, members[i], structName) == Err(r.error)
        && (forall j :: 0 <= j < i ==> Columns.ExtractColumn(ex, members[j], structName).Ok?)
  {
    if members == [] then Ok([])
    else
      match Columns.ExtractColumn(ex, members[0], structName)
      case Err(e) => Err(e)
      case Ok(c) =>
        match ExtractColumns(ex, members[1..], structName)
        case Err(e) => Err(e)
        case Ok(cs) => Ok([c] + cs)
  }

  /** `TableStructure::iextract` on values: columns, then the key prefix, then
      promotion of a sole leading key whose member has a primary type. */
  function Table(schema: Schema, item: Struct): Result<TableStructure> {
    match ExtractColumns(schema.extractors, item.members, item.name)
    case Err(e) => Err(e)
    case Ok(columns) =>
      match KeysIndex(columns)
      case Err(e) => Err(e)
      case Ok(keysIndex) =>
        var name := item.name;
        if keysIndex == 1 && schema.isPrimaryType(item.members[0].ty) then
          match Pr.TryFromColumn(schema.toPrimary, columns[0])
          case Err(e) => Err(e)
          case Ok(p) => Ok(TableStructure(name, Primary(p), p, columns[1..], [], name + "Structure", name + "Column"))
        else
          Ok(TableStructure(name, Custom(keysIndex), schema.fallbackPrimary, columns, [], name + "Structure", name + "Column"))
  }

  /** `TableStructure::iextract`, which removes the promoted column from the
      column list in place. */
  method ExtractTable(schema: Schema, item: Struct) returns (r: Result<TableStructure>)
    ensures r == Table(schema, item)
  {
    var extracted := ExtractColumns(schema.extractors, item.members, item.name);
    if extracted.Err? {
      return Err(extracted.error);
    }
    var columns := extracted.value;
    var keys := GetKeysIndex(columns);
    if keys.Err? {
      return Err(keys.error);
    }
    var keysIndex := keys.value;
    var name := item.name;
    var implName := name + "Structure";
    var columnModName := name + "Column";
    var key: KeyType;
    var primary := schema.fallbackPrimary;
    if keysIndex == 1 && schema.isPrimaryType(item.members[0].ty) {
      var removed := columns[0];
      columns := columns[1..];
      var converted := Pr.TryFromColumn(schema.toPrimary, removed);
      if converted.Err? {
        return Err(converted.error);
      }
      key := Primary(converted.value);
      primary := converted.value;
    } else {
      key := Custom(keysIndex);
    }
    r := Ok(TableStructure(name, key, primary, columns, [], implName, columnModName));
  }

  /** What every assembled table satisfies: derived names, no struct-level
      attributes, and key columns exactly where the key type says. */
  predicate ValidTable(t: TableStructure) {
    && t.attributes == []
    && t.implName == t.name + "Structure"
    && t.columnsModName == t.name + "Column"
    && match t.key
       case Primary(p) =>
         t.primary == p && forall i :: 0 <= i < |t.columns| ==> !t.columns[i].key
       case Custom(k) =>
         && k <= |t.columns|
         && (forall i :: 0 <= i < k ==> t.columns[i].key)
         && (forall i :: k <= i < |t.columns| ==> !t.columns[i].key)
  }

  /** The number of leading key columns an assembled table keeps. */
  function KeptKeys(t: TableStructure): nat {
    match t.key
    case Primary(_) => 0
    case Custom(k) => k
  }

  /** The two shapes a successful assembly takes, with the column list and
      the key count it was built from. */
  lemma TableCases(schema: Schema, item: Struct)
    requires Table(schema, item).Ok?
    ensures ExtractColumns(schema.extractors, item.members, item.name).Ok?
    ensures var columns := ExtractColumns(schema.extractors, item.members, item.name).value;
      var k := KeyCount(columns);
      var t := Table(schema, item).value;
      && KeysFormPrefix(columns)
      && t.name == item.name && t.attributes == []
      && t.implName == item.name + "Structure" && t.columnsModName == item.name + "Column"
      && (if k == 1 && schema.isPrimaryType(item.members[0].ty)
          then Pr.TryFromColumn(schema.toPrimary, columns[0]).Ok?
            && t.key == Primary(Pr.TryFromColumn(schema.toPrimary, columns[0]).value)
            && t.primary == t.key.primary && t.columns == columns[1..]
          else t.key == Custom(k) && t.columns == columns)
  {
    var extracted := ExtractColumns(schema.extractors, item.members, item.name);
    assert extracted.Ok?;
    var columns := extracted.value;
    assert KeysIndex(columns).Ok?;
  }

  lemma TableIsValid(schema: Schema, item: Struct)
    requires Table(schema, item).Ok?
    ensures ValidTable(Table(schema, item).value)
  {
    TableCases(schema, item);
    var columns := ExtractColumns(schema.extractors, item.members, item.name).value;
    PrefixShape(columns);
    AssembledIsValid(Table(schema, item).value, columns);
  }

  lemma AssembledIsValid(t: TableStructure, columns: seq<Column>)
    requires t.attributes == [] && t.implName == t.name + "Structure" && t.columnsModName == t.name + "Column"
    requires forall i :: 0 <= i < KeyCount(columns) ==> columns[i].key
    requires forall i :: KeyCount(columns) <= i < |columns| ==> !columns[i].key
    requires t.key.Primary? ==> KeyCount(columns) == 1 && t.primary == t.key.primary && t.columns == columns[1..]
    requires t.key.Custom? ==> t.key.size == KeyCount(columns) && t.columns == columns
    ensures ValidTable(t)
  {
    var k := KeyCount(columns);
    match t.key
    case Primary(p) =>
      forall i | 0 <= i < |t.columns|
        ensures !t.columns[i].key
      {
        assert t.columns[i] == columns[i + 1];
      }
    case Custom(size) =>
      assert size == k;
  }

  /** Promotion happens exactly when there is one leading key and the first
      member has a primary type; the promoted column is then the first one,
      removed from the list and converted. Otherwise the key is `Custom` with
      the key count and the columns are unchanged. */
  lemma TablePromotion(schema: Schema, item: Struct)
    requires Table(schema, item).Ok?
    ensures var columns := ExtractColumns(schema.extractors, item.members, item.name).value;
      var t := Table(schema, item).value;
      && (t.key.Primary? <==> KeyCount(columns) == 1 && schema.isPrimaryType(item.members[0].ty))
      && (t.key.Primary? ==>
            t.columns == columns[1..] && Pr.TryFromColumn(schema.toPrimary, columns[0]) == Ok(t.key.primary))
      && (t.key.Custom? ==> t.key.size == KeyCount(columns) && t.columns == columns)
  {
    TableCases(schema, item);
  }

  /** Assembly fails exactly when a column fails, the keys are not a prefix,
      or the promoted column's descriptor has no primary-eligible counterpart. */
  lemma TableFails(schema: Schema, item: Struct)
    ensures var extracted := ExtractColumns(schema.extractors, item.members, item.name);
      Table(schema, item).Err? <==>
        || extracted.Err?
        || !KeysFormPrefix(extracted.value)
        || (KeyCount(extracted.value) == 1 && schema.isPrimaryType(item.members[0].ty) &&
            schema.toPrimary(extracted.value[0].typeDef).Err?)
  {
  }

  /** The derived names and the empty attribute list depend on the struct name
      only, whatever the members and the struct's own attributes. */
  lemma TableDerivedNames(schema: Schema, item: Struct)
    requires Table(schema, item).Ok?
    ensures var t := Table(schema, item).value;
      && t.name == item.name
      && t.implName == item.name + "Structure"
      && t.columnsModName == item.name + "Column"
      && t.attributes == []
  {
    TableCases(schema, item);
  }

  /** A member marked `key` after an unmarked one makes assembly fail with
      `KeysNotFirst` once every member yields a column. */
  lemma TableKeysNotFirst(schema: Schema, item: Struct, i: nat, j: nat)
    requires i < j < |item.members|
    requires !Columns.HasNameOnlyAttribute(item.members[i].attributes, "key")
    requires Columns.HasNameOnlyAttribute(item.members[j].attributes, "key")
    requires ExtractColumns(schema.extractors, item.members, item.name).Ok?
    ensures Table(schema, item) == Err(KeysNotFirst)
  {
    var columns := ExtractColumns(schema.extractors, item.members, item.name).value;
    assert !columns[i].key && columns[j].key;
  }

  /** With no member marked `key` the key is `Custom(0)` and every column stays. */
  lemma TableWithoutKeys(schema: Schema, item: Struct)
    requires forall i :: 0 <= i < |item.members| ==> !Columns.HasNameOnlyAttribute(item.members[i].attributes, "key")
    requires ExtractColumns(schema.extractors, item.members, item.name).Ok?
    ensures Table(schema, item).Ok?
    ensures Table(schema, item).value.key == Custom(0)
    ensures Table(schema, item).value.columns == ExtractColumns(schema.extractors, item.members, item.name).value
  {
    var columns := ExtractColumns(schema.extractors, item.members, item.name).value;
    assert forall i :: 0 <= i < |columns| ==> !columns[i].key;
    KeysBelowCountArePrefix(columns);
    NoKeysCountZero(columns);
  }

  lemma {:induction false} NoKeysCountZero(cols: seq<Column>)
    requires forall i :: 0 <= i < |cols| ==> !cols[i].key
    ensures KeyCount(cols) == 0
  {
    if cols != [] {
      var init := cols[..|cols| - 1];
      assert forall i :: 0 <= i < |init| ==> init[i] == cols[i];
      NoKeysCountZero(init);
    }
  }

  // ---------------------------------------------------------------------------
  // The key / non-key partition.

  /** The key columns, in order. */
  function KeyColumns(cols: seq<Column>): (r: seq<Column>)
  {
    if cols == [] then []
    else KeyColumns(cols[..|cols| - 1]) + (if cols[|cols| - 1].key then [cols[|cols| - 1]] else [])
  }

  /** The non-key columns, in order. */
  function NonKeyColumns(cols: seq<Column>): (r: seq<Column>)
  {
    if cols == [] then []
    else NonKeyColumns(cols[..|cols| - 1]) + (if cols[|cols| - 1].key then [] else [cols[|cols| - 1]])
  }

  /** The key filter keeps exactly the key columns and the other filter the rest. */
  lemma {:induction false} PartitionMembers(cols: seq<Column>)
    ensures forall c :: c in KeyColumns(cols) <==> c in cols && c.key
    ensures forall c :: c in NonKeyColumns(cols) <==> c in cols && !c.key
  {
    if cols != [] {
      var init := cols[..|cols| - 1];
      PartitionMembers(init);
      assert cols == init + [cols[|cols| - 1]];
    }
  }

  /** When the first `k` columns are the keys, filtering keeps exactly those. */
  lemma {:induction false} KeyColumnsPrefix(cols: seq<Column>, k: nat)
    requires k <= |cols|
    requires forall i :: 0 <= i < k ==> cols[i].key
    requires forall i :: k <= i < |cols| ==> !cols[i].key
    ensures KeyColumns(cols) == cols[..k]
  {
    if cols != [] {
      var n := |cols|;
      var init, last := cols[..n - 1], cols[n - 1];
      var k' := if k == n then n - 1 else k;
      InitKeysSplit(cols, init, k, k');
      KeyColumnsPrefix(init, k');
      if k == n {
        assert last.key;
        assert KeyColumns(cols) == init[..n - 1] + [last];
        assert init[..n - 1] + [last] == cols;
      } else {
        assert !last.key;
        assert KeyColumns(cols) == init[..k];
        assert init[..k] == cols[..k];
      }
    }
  }

  /** When the first `k` columns are the keys, filtering them out leaves the rest. */
  lemma {:induction false} NonKeyColumnsSuffix(cols: seq<Column>, k: nat)
    requires k <= |cols|
    requires forall i :: 0 <= i < k ==> cols[i].key
    requires forall i :: k <= i < |cols| ==> !cols[i].key
    ensures NonKeyColumns(cols) == cols[k..]
  {
    if cols != [] {
      var n := |cols|;
      var init, last := cols[..n - 1], cols[n - 1];
      var k' := if k == n then n - 1 else k;
      InitKeysSplit(cols, init, k, k');
      NonKeyColumnsSuffix(init, k');
      if k == n {
        assert last.key;
        assert NonKeyColumns(cols) == init[n - 1..];
        assert init[n - 1..] == [];
      } else {
        assert !last.key;
        assert NonKeyColumns(cols) == init[k..] + [last];
        DropSnoc(cols, k);
      }
    }
  }

  /** Dropping the last column keeps the split into leading keys and trailing
      non-keys, at the same place unless the dropped column was a key. */
  lemma InitKeysSplit(cols: seq<Column>, init: seq<Column>, k: nat, k': nat)
    requires cols != [] && init == cols[..|cols| - 1] && k <= |cols|
    requires k' == if k == |cols| then |init| else k
    requires forall i :: 0 <= i < k ==> cols[i].key
    requires forall i :: k <= i < |cols| ==> !cols[i].key
    ensures k' <= |init|
    ensures forall i :: 0 <= i < k' ==> init[i].key
    ensures forall i :: k' <= i < |init| ==> !init[i].key
  {
    assert forall i :: 0 <= i < |init| ==> init[i] == cols[i];
  }

  /** In an assembled table the kept keys are the leading columns and the
      non-key columns are all the others; under a promoted primary no key
      column is left. */
  lemma TablePartition(t: TableStructure)
    requires ValidTable(t)
    ensures KeyColumns(t.columns) == t.columns[..KeptKeys(t)]
    ensures NonKeyColumns(t.columns) == t.columns[KeptKeys(t)..]
  {
    KeyColumnsPrefix(t.columns, KeptKeys(t));
    NonKeyColumnsSuffix(t.columns, KeptKeys(t));
  }

  // ---------------------------------------------------------------------------
  // Emission: the columns namespace.

  function ColumnModLines(cols: seq<Column>): (r: seq<string>)
    ensures |r| == |cols|
    ensures forall i :: 0 <= i < |cols| ==> r[i] == Columns.ColumnModLine(cols[i])
  {
    if cols == [] then []
    else ColumnModLines(cols[..|cols| - 1]) + [Columns.ColumnModLine(cols[|cols| - 1])]
  }

  function ColumnModsHeader(t: TableStructure): string {
    "pub mod " + t.columnsModName + " {"
  }

  function ColumnModsLines(t: TableStructure): seq<string> {
    [ColumnModsHeader(t)] + ColumnModLines(t.columns) + ["}"]
  }

  /** `cwrite_column_mods`: the module header, one constant per column, the closing brace. */
  method WriteColumnMods(t: TableStructure, buf: Writer, iPath: string)
    modifies buf
    ensures buf.text == old(buf.text) + Unlines(ColumnModsLines(t))
  {
    buf.WriteLines([ColumnModsHeader(t)]);
    ghost var written := [ColumnModsHeader(t)];
    for i := 0 to |t.columns|
      invariant written == [ColumnModsHeader(t)] + ColumnModLines(t.columns[..i])
      invariant buf.text == old(buf.text) + Unlines(written)
    {
      var line := Columns.ColumnModLine(t.columns[i]);
      assert t.columns[..i + 1][..i] == t.columns[..i];
      assert ColumnModLines(t.columns[..i + 1]) == ColumnModLines(t.columns[..i]) + [line];
      ConcatAssoc([ColumnModsHeader(t)], ColumnModLines(t.columns[..i]), [line]);
      UnlinesSnoc(written, line);
      ConcatAssoc(old(buf.text), Unlines(written), line);
      ConcatAssoc(old(buf.text), Unlines(written) + line, "\n");
      Columns.WriteColumnMod(t.columns[i], buf);
      written := written + [line];
    }
    assert t.columns[..|t.columns|] == t.columns;
    UnlinesSnoc(written, "}");
    ConcatAssoc(old(buf.text), Unlines(written), "}");
    ConcatAssoc(old(buf.text), Unlines(written) + "}", "\n");
    buf.WriteLine("}");
  }

  /** No character `c` in any member name, id, member binding name or type text. */
  predicate ColumnsFree(cols: seq<Column>, c: char) {
    forall i :: 0 <= i < |cols| ==>
      Free(cols[i].member, c) && Free(cols[i].id, c) && Free(cols[i].memberImplName, c) && Free(cols[i].ty, c)
  }

  /** Read back line by line, the columns namespace is its header, then one
      `pub const <member> = <id>;` line per column in declaration order, then
      the closing brace. */
  lemma ColumnModsReadBack(t: TableStructure)
    requires Free(t.columnsModName, '\n') && ColumnsFree(t.columns, '\n')
    ensures var ls := Lines(Unlines(ColumnModsLines(t)));
      && |ls| == |t.columns| + 2
      && ls[0] == "pub mod " + t.columnsModName + " {"
      && ls[|ls| - 1] == "}"
      && forall i :: 0 <= i < |t.columns| ==>
           ls[i + 1] == "pub const " + t.columns[i].member + " = " + t.columns[i].id + ";"
  {
    var ls := ColumnModsLines(t);
    forall i | 0 <= i < |ls| ensures Free(ls[i], '\n') {
      if 0 < i < |ls| - 1 {
        assert ls[i] == Columns.ColumnModLine(t.columns[i - 1]);
      }
    }
    LinesUnlines(ls);
  }

  // ---------------------------------------------------------------------------
  // Emission: member bindings.

  function MemberImplLines(cols: seq<Column>, iPath: string, implName: string): (r: seq<string>)
    ensures |r| == |cols|
    ensures forall i :: 0 <= i < |cols| ==> r[i] == Columns.MemberImplLine(cols[i], iPath, implName)
  {
    if cols == [] then []
    else MemberImplLines(cols[..|cols| - 1], iPath, implName) + [Columns.MemberImplLine(cols[|cols| - 1], iPath, implName)]
  }

  /** `cwrite_member_impls`: one binding per column, in order, all naming the structure implementation. */
  method WriteMemberImpls(t: TableStructure, buf: Writer, iPath: string)
    modifies buf
    ensures buf.text == old(buf.text) + Unlines(MemberImplLines(t.columns, iPath, t.implName))
  {
    ghost var written: seq<string> := [];
    for i := 0 to |t.columns|
      invariant written == MemberImplLines(t.columns[..i], iPath, t.implName)
      invariant buf.text == old(buf.text) + Unlines(written)
    {
      var line := Columns.MemberImplLine(t.columns[i], iPath, t.implName);
      assert t.columns[..i + 1][..i] == t.columns[..i];
      assert MemberImplLines(t.columns[..i + 1], iPath, t.implName) == written + [line];
      UnlinesSnoc(written, line);
      ConcatAssoc(old(buf.text), Unlines(written), line);
      ConcatAssoc(old(buf.text), Unlines(written) + line, "\n");
      Columns.WriteMemberImpl(t.columns[i], buf, iPath, t.implName);
      written := written + [line];
    }
    assert t.columns[..|t.columns|] == t.columns;
  }

  lemma MemberImplLineFree(c: Column, iPath: string, implName: string)
    requires Free(iPath, '\n') && Free(implName, '\n')
    requires Free(c.memberImplName, '\n') && Free(c.id, '\n') && Free(c.ty, '\n')
    ensures Free(Columns.MemberImplLine(c, iPath, implName), '\n')
  {
  }

  /** Read back line by line, the bindings are one line per column in
      declaration order, each with the column's binding name, id and type. */
  lemma MemberImplsReadBack(t: TableStructure, iPath: string)
    requires Free(iPath, '\n') && Free(t.implName, '\n') && ColumnsFree(t.columns, '\n')
    ensures var ls := Lines(Unlines(MemberImplLines(t.columns, iPath, t.implName)));
      && |ls| == |t.columns|
      && forall i :: 0 <= i < |t.columns| ==>
           ls[i] == "pub impl " + t.columns[i].memberImplName + " = " + iPath + "::MemberImpl<"
                    + t.implName + ", " + t.columns[i].id + ", " + t.columns[i].ty + ">;"
  {
    var ls := MemberImplLines(t.columns, iPath, t.implName);
    forall i | 0 <= i < |ls| ensures Free(ls[i], '\n') {
      MemberImplLineFree(t.columns[i], iPath, t.implName);
    }
    LinesUnlines(ls);
  }

  // ---------------------------------------------------------------------------
  // Emission: the structure implementation.

  /** The parameter list the attribute and primary serialisation routines share. */
  const DataParams := "(ref data: Array<felt252>)"
  /** The parameter list of the column serialisation routine. */
  const ColumnsParams := "(ref table_def: Array<felt252>, " + "ref children: ChildDefs)"
  const SerialiseAttributesOpen := "fn serialise_attributes" + DataParams + " {\n"
  const SerializePrimaryOpen := "fn serialize_primary" + DataParams + " {\n"
  const SerialiseColumnsOpen := "fn serialise_columns" + ColumnsParams + " {\n"

  function ColumnDefsText(r: Renderers, cols: seq<Column>, iPath: string): string {
    if cols == [] then ""
    else ColumnDefsText(r, cols[..|cols| - 1], iPath) + Columns.ColumnDefText(r, cols[|cols| - 1], iPath)
  }

  lemma ColumnDefsSnoc(r: Renderers, cols: seq<Column>, i: nat, iPath: string)
    requires i < |cols|
    ensures ColumnDefsText(r, cols[..i + 1], iPath)
      == ColumnDefsText(r, cols[..i], iPath) + Columns.ColumnDefText(r, cols[i], iPath)
  {
    assert cols[..i + 1][..i] == cols[..i];
  }

  /** The column-count constant, in decimal. */
  function ColumnCountLine(n: nat): string {
    "const COLUMN_COUNT = " + NatToString(n) + ";\n"
  }

  /** The implementation header, the primary type, the attribute count and the column count. */
  function StructureImplPrelude(r: Renderers, t: TableStructure, iPath: string): string {
    ("pub impl " + t.implName + " of " + iPath + "::TableStructure {\n")
    + ("type Primary = " + t.primary.ty + ";\n")
    + r.attributeCount(t.attributes)
    + ColumnCountLine(|t.columns|)
  }

  /** `serialise_attributes` as its source writes it: its body is never closed. */
  function AttributesRoutineAsWritten(r: Renderers, t: TableStructure, iPath: string): string {
    SerialiseAttributesOpen + iPath + "::serialise_data::<_," + r.csvWrapped(t.attributes, "{[", "]}>(ref data);\n")
  }

  /** `serialise_attributes`, closed. */
  function AttributesRoutine(r: Renderers, t: TableStructure, iPath: string): string {
    AttributesRoutineAsWritten(r, t, iPath) + "}\n"
  }

  function PrimaryRoutine(r: Renderers, t: TableStructure, iPath: string): string {
    SerializePrimaryOpen + Pr.PrimaryDataText(r, t.primary, iPath) + "}\n"
  }

  function ColumnsRoutine(r: Renderers, t: TableStructure, iPath: string): string {
    SerialiseColumnsOpen + ColumnDefsText(r, t.columns, iPath) + "}\n"
  }

  /** `cwrite_structure_impl` as its source writes it. */
  function StructureImplAsWritten(r: Renderers, t: TableStructure, iPath: string): string {
    StructureImplPrelude(r, t, iPath) + AttributesRoutineAsWritten(r, t, iPath)
    + PrimaryRoutine(r, t, iPath) + ColumnsRoutine(r, t, iPath) + "}\n"
  }

  /** The structure implementation with `serialise_attributes` closed. */
  function StructureImplText(r: Renderers, t: TableStructure, iPath: string): string {
    StructureImplPrelude(r, t, iPath) + AttributesRoutine(r, t, iPath)
    + PrimaryRoutine(r, t, iPath) + ColumnsRoutine(r, t, iPath) + "}\n"
  }

  /** `cwrite_structure_impl`, with the closing brace of `serialise_attributes`. */
  method WriteStructureImpl(r: Renderers, t: TableStructure, buf: Writer, iPath: string)
    modifies buf
    ensures buf.text == old(buf.text) + StructureImplText(r, t, iPath)
  {
    var prelude := StructureImplPrelude(r, t, iPath);
    var attributes := AttributesRoutine(r, t, iPath);
    var primary := PrimaryRoutine(r, t, iPath);
    var columns := ColumnsRoutine(r, t, iPath);
    WritePrelude(r, t, buf, iPath);
    WriteAttributesRoutine(r, t, buf, iPath);
    ConcatAssoc(old(buf.text), prelude, attributes);
    WritePrimaryRoutine(r, t, buf, iPath);
    ConcatAssoc(old(buf.text), prelude + attributes, primary);
    WriteColumnsRoutine(r, t, buf, iPath);
    ConcatAssoc(old(buf.text), prelude + attributes + primary, columns);
    buf.Write("}\n");
    ConcatAssoc(old(buf.text), prelude + attributes + primary + columns, "}\n");
  }

  method WritePrelude(r: Renderers, t: TableStructure, buf: Writer, iPath: string)
    modifies buf
    ensures buf.text == old(buf.text) + StructureImplPrelude(r, t, iPath)
  {
    var header := "pub impl " + t.implName + " of " + iPath + "::TableStructure {\n";
    var primary := "type Primary = " + t.primary.ty + ";\n";
    var count := r.attributeCount(t.attributes);
    buf.Write(header);
    buf.Write(primary);
    ConcatAssoc(old(buf.text), header, primary);
    buf.Write(count);
    ConcatAssoc(old(buf.text), header + primary, count);
    buf.Write(ColumnCountLine(|t.columns|));
    ConcatAssoc(old(buf.text), header + primary + count, ColumnCountLine(|t.columns|));
  }

  method WriteAttributesRoutine(r: Renderers, t: TableStructure, buf: Writer, iPath: string)
    modifies buf
    ensures buf.text == old(buf.text) + AttributesRoutine(r, t, iPath)
  {
    buf.Write(SerialiseAttributesOpen);
    buf.Write(iPath + "::serialise_data::<_,");
    buf.Write(r.csvWrapped(t.attributes, "{[", "]}>(ref data);\n"));
    buf.Write("}\n");
  }

  method WritePrimaryRoutine(r: Renderers, t: TableStructure, buf: Writer, iPath: string)
    modifies buf
    ensures buf.text == old(buf.text) + PrimaryRoutine(r, t, iPath)
  {
    buf.Write(SerializePrimaryOpen);
    Pr.WritePrimaryData(r, t.primary, buf, iPath);
    buf.Write("}\n");
  }

  method WriteColumnsRoutine(r: Renderers, t: TableStructure, buf: Writer, iPath: string)
    modifies buf
    ensures buf.text == old(buf.text) + ColumnsRoutine(r, t, iPath)
  {
    buf.Write(SerialiseColumnsOpen);
    ghost var before := buf.text;
    for i := 0 to |t.columns|
      invariant buf.text == before + ColumnDefsText(r, t.columns[..i], iPath)
    {
      ghost var done := ColumnDefsText(r, t.columns[..i], iPath);
      ghost var next := Columns.ColumnDefText(r, t.columns[i], iPath);
      ColumnDefsSnoc(r, t.columns, i, iPath);
      Columns.WriteColumnDef(r, t.columns[i], buf, iPath);
      ConcatAssoc(before, done, next);
    }
    assert t.columns[..|t.columns|] == t.columns;
    ghost var defs := ColumnDefsText(r, t.columns, iPath);
    buf.Write("}\n");
    ConcatAssoc(old(buf.text), SerialiseColumnsOpen, defs);
    ConcatAssoc(old(buf.text), SerialiseColumnsOpen + defs, "}\n");
  }

  /** The structure implementation states the column count as a decimal
      numeral without leading zero that reads back as the number of
      columns; only the closing brace of `serialise_attributes` separates it
      from the text as the source writes it. */
  lemma StructureImplColumnCount(r: Renderers, t: TableStructure, iPath: string)
    ensures exists before, digits, after ::
      && StructureImplText(r, t, iPath) == before + ("const COLUMN_COUNT = " + digits + ";\n") + after
      && IsDigits(digits) && (digits[0] == '0' ==> |digits| == 1)
      && ParseNat(digits) == |t.columns|
  {
    var before := ("pub impl " + t.implName + " of " + iPath + "::TableStructure {\n")
      + ("type Primary = " + t.primary.ty + ";\n") + r.attributeCount(t.attributes);
    ColumnCountBetween(before, |t.columns|,
      AttributesRoutine(r, t, iPath), PrimaryRoutine(r, t, iPath), ColumnsRoutine(r, t, iPath), "}\n");
  }

  /** A text holding the column-count line before four more pieces holds a
      numeral that reads back as the count. */
  lemma ColumnCountBetween(before: string, n: nat, a: string, b: string, c: string, d: string)
    ensures exists x, digits, y ::
      && before + ColumnCountLine(n) + a + b + c + d == x + ("const COLUMN_COUNT = " + digits + ";\n") + y
      && IsDigits(digits) && (digits[0] == '0' ==> |digits| == 1)
      && ParseNat(digits) == n
  {
    var digits := NatToString(n);
    NatToStringRoundTrip(n);
    assert before + ColumnCountLine(n) + a + b + c + d
      == before + ("const COLUMN_COUNT = " + digits + ";\n") + (a + b + c + d);
  }

  /** `{` and `}` counted against each other. */
  function Braces(s: string): int {
    Balance(s, '{', '}')
  }

  lemma OpenLineBraces()
    ensures Braces(" {\n") == 1
  {
    assert " {\n"[..2] == " {";
    assert " {"[..1] == " ";
    assert " "[..0] == "";
  }

  lemma CloseLineBraces()
    ensures Braces("}\n") == -1
  {
    assert "}\n"[..1] == "}";
    assert "}"[..0] == "";
  }

  lemma DataParamsNoBraces()
    ensures Braces(DataParams) == 0
  {
    BalanceFree(DataParams, '{', '}');
  }

  lemma AttributesNameNoBraces()
    ensures Braces("fn serialise_attributes") == 0
  {
    BalanceFree("fn serialise_attributes", '{', '}');
  }

  lemma AttributesOpenBraces()
    ensures Braces(SerialiseAttributesOpen) == 1
  {
    AttributesNameNoBraces();
    DataParamsNoBraces();
    BalanceAppend("fn serialise_attributes", DataParams, '{', '}');
    OpenLineBraces();
    BalanceAppend("fn serialise_attributes" + DataParams, " {\n", '{', '}');
  }

  /** As the source writes it, `serialise_attributes` leaves one brace open
      whenever the path and the wrapped attribute list are brace-neutral;
      closed, it is balanced. */
  lemma AttributesRoutineBraces(r: Renderers, t: TableStructure, iPath: string)
    requires Braces(iPath) == 0
    requires Braces(r.csvWrapped(t.attributes, "{[", "]}>(ref data);\n")) == 0
    ensures Braces(AttributesRoutineAsWritten(r, t, iPath)) == 1
    ensures Braces(AttributesRoutine(r, t, iPath)) == 0
  {
    AttributesOpenBraces();
    CloseLineBraces();
    BalanceFree("::serialise_data::<_,", '{', '}');
    var csv := r.csvWrapped(t.attributes, "{[", "]}>(ref data);\n");
    BalanceAppend(SerialiseAttributesOpen, iPath, '{', '}');
    BalanceAppend(SerialiseAttributesOpen + iPath, "::serialise_data::<_,", '{', '}');
    BalanceAppend(SerialiseAttributesOpen + iPath + "::serialise_data::<_,", csv, '{', '}');
    BalanceAppend(AttributesRoutineAsWritten(r, t, iPath), "}\n", '{', '}');
  }

  /** Whatever the collaborators write, the structure implementation as the
      source writes it has one `}` fewer than the corrected one, so its brace
      balance is one higher. */
  lemma StructureImplAsWrittenBraces(r: Renderers, t: TableStructure, iPath: string)
    ensures Braces(StructureImplAsWritten(r, t, iPath)) == Braces(StructureImplText(r, t, iPath)) + 1
  {
    CloseLineBraces();
    BalanceOfInserted(StructureImplPrelude(r, t, iPath), AttributesRoutineAsWritten(r, t, iPath), "}\n",
      PrimaryRoutine(r, t, iPath), ColumnsRoutine(r, t, iPath), "}\n", '{', '}');
  }

  // ---------------------------------------------------------------------------
  // Emission: record identity.

  /** The accessor line of `record_id`, as its source writes it: a stray `)`. */
  function RecordIdLineAsWritten(p: Pr.Primary): string {
    "self." + p.name + ")"
  }

  /** The accessor line of `record_id`. */
  function RecordIdLine(p: Pr.Primary): string {
    "self." + p.name
  }

  function IdImplLinesWith(t: TableStructure, iPath: string, accessor: Pr.Primary -> string): seq<string> {
    match t.key
    case Custom(_) => []
    case Primary(p) => [RecordPrimaryHeader(t, iPath), RecordIdSignature(t), accessor(p), "}", "}"]
  }

  function RecordPrimaryHeader(t: TableStructure, iPath: string): string {
    "pub impl " + t.name + "RecordPrimary of " + iPath + "::RecordPrimary<" + t.implName + ", " + t.name + "> {"
  }

  function RecordIdSignature(t: TableStructure): string {
    "fn record_id(self: @" + t.name + ") -> @" + t.implName + "::Primary {"
  }

  /** `cwrite_id_impls` as its source writes it. */
  function IdImplLinesAsWritten(t: TableStructure, iPath: string): seq<string> {
    IdImplLinesWith(t, iPath, RecordIdLineAsWritten)
  }

  /** The record-identity implementation: under a promoted primary one accessor
      returning the primary field; under `Custom` keys nothing. */
  function IdImplLines(t: TableStructure, iPath: string): seq<string> {
    IdImplLinesWith(t, iPath, RecordIdLine)
  }

  /** `cwrite_id_impls`, without the stray parenthesis. */
  method WriteIdImpls(t: TableStructure, buf: Writer, iPath: string)
    modifies buf
    ensures buf.text == old(buf.text) + Unlines(IdImplLines(t, iPath))
  {
    match t.key
    case Primary(p) => {
      buf.WriteLines(IdImplLines(t, iPath));
    }
    case Custom(_) => {
    }
  }

  /** `(` and `)` counted against each other. */
  function Parens(s: string): int {
    Balance(s, '(', ')')
  }

  lemma NoParens(s: string)
    requires Free(s, '(') && Free(s, ')')
    ensures Parens(s) == 0
  {
    BalanceFree(s, '(', ')');
  }

  /** The fixed words around the record-identity header hold no parenthesis. */
  lemma HeaderWordsNoParens()
    ensures Parens("pub impl ") == 0 && Parens("RecordPrimary of ") == 0
  {
    assert Parens("pub impl ") == 0 by { NoParens("pub impl "); }
    assert Parens("RecordPrimary of ") == 0 by { NoParens("RecordPrimary of "); }
  }

  lemma HeaderPunctuationNoParens()
    ensures Parens("::RecordPrimary<") == 0 && Parens(", ") == 0 && Parens("> {") == 0
  {
    assert Parens("::RecordPrimary<") == 0 by { NoParens("::RecordPrimary<"); }
    assert Parens(", ") == 0 by { NoParens(", "); }
    assert Parens("> {") == 0 by { NoParens("> {"); }
  }

  lemma RecordPrimaryHeaderParens(t: TableStructure, iPath: string)
    requires Parens(t.name) == 0 && Parens(t.implName) == 0 && Parens(iPath) == 0
    ensures Parens(RecordPrimaryHeader(t, iPath)) == 0
  {
    HeaderWordsNoParens();
    HeaderPunctuationNoParens();
    BalanceOfNine("pub impl ", t.name, "RecordPrimary of ", iPath, "::RecordPrimary<", t.implName, ", ", t.name, "> {", '(', ')');
  }

  lemma RecordIdSignatureParens(t: TableStructure)
    requires Parens(t.name) == 0 && Parens(t.implName) == 0
    ensures Parens(RecordIdSignature(t)) == 0
  {
    var name := t.name;
    var implName := t.implName;
    assert "fn record_id(self: @"[..12] == "fn record_id";
    assert "fn record_id(self: @" == "fn record_id" + "(" + "self: @";
    assert ") -> @" == ")" + " -> @";
    BalanceFree("fn record_id", '(', ')');
    BalanceFree("self: @", '(', ')');
    BalanceFree(" -> @", '(', ')');
    BalanceFree("::Primary {", '(', ')');
    assert Parens("(") == 1 by { assert "("[..0] == ""; }
    assert Parens(")") == -1 by { assert ")"[..0] == ""; }
    BalanceAppend("fn record_id", "(", '(', ')');
    BalanceAppend("fn record_id" + "(", "self: @", '(', ')');
    BalanceAppend(")", " -> @", '(', ')');
    BalanceAppend("fn record_id(self: @", name, '(', ')');
    BalanceAppend("fn record_id(self: @" + name, ") -> @", '(', ')');
    BalanceAppend("fn record_id(self: @" + name + ") -> @", implName, '(', ')');
    BalanceAppend("fn record_id(self: @" + name + ") -> @" + implName, "::Primary {", '(', ')');
  }

  /** The accessor as the source writes it closes a parenthesis it never
      opened; the corrected one is balanced. */
  lemma RecordIdLineParens(p: Pr.Primary)
    requires Parens(p.name) == 0
    ensures Parens(RecordIdLineAsWritten(p)) == -1
    ensures Parens(RecordIdLine(p)) == 0
  {
    BalanceFree("self.", '(', ')');
    BalanceAppend("self.", p.name, '(', ')');
    assert Parens(")") == -1 by { assert ")"[..0] == ""; }
    BalanceAppend("self." + p.name, ")", '(', ')');
  }

  lemma IdImplLinesParens(t: TableStructure, iPath: string, accessor: Pr.Primary -> string)
    requires t.key.Primary?
    ensures Parens(Unlines(IdImplLinesWith(t, iPath, accessor))) ==
      Parens(RecordPrimaryHeader(t, iPath)) + Parens(RecordIdSignature(t)) + Parens(accessor(t.key.primary))
  {
    var ls := IdImplLinesWith(t, iPath, accessor);
    BalanceUnlines(ls, '(', ')');
    BalanceFree("}", '(', ')');
    var closing := ["}", "}"];
    assert closing[1..][1..] == [];
    assert LinesBalance(closing, '(', ')') == 0;
    assert ls[1..][1..][1..] == closing;
    assert LinesBalance(ls[1..][1..], '(', ')') == Parens(accessor(t.key.primary));
  }

  /** As the source writes it, the record-identity implementation closes one
      parenthesis more than it opens, whenever the names involved hold none;
      the corrected one is balanced. */
  lemma IdImplParens(t: TableStructure, iPath: string)
    requires t.key.Primary?
    requires Parens(t.name) == 0 && Parens(t.implName) == 0 && Parens(iPath) == 0
    requires Parens(t.key.primary.name) == 0
    ensures Parens(Unlines(IdImplLinesAsWritten(t, iPath))) == -1
    ensures Parens(Unlines(IdImplLines(t, iPath))) == 0
  {
    RecordPrimaryHeaderParens(t, iPath);
    RecordIdSignatureParens(t);
    RecordIdLineParens(t.key.primary);
    IdImplLinesParens(t, iPath, RecordIdLineAsWritten);
    IdImplLinesParens(t, iPath, RecordIdLine);
  }

  /** Without a `name(..)` directive, the promoted primary carries the quoted
      member name, so the accessor reads `self.` and the quoted name. */
  lemma PromotedAccessorName(schema: Schema, item: Struct)
    requires Table(schema, item).Ok? && Table(schema, item).value.key.Primary?
    requires |item.members| > 0
    requires Columns.LastDirective(schema.extractors, item.members[0].attributes, "name").None?
    ensures var p := Table(schema, item).value.key.primary;
      && RecordIdLineAsWritten(p) == "self." + schema.extractors.quoted(item.members[0].name) + ")"
      && RecordIdLine(p) == "self." + schema.extractors.quoted(item.members[0].name)
  {
    TableCases(schema, item);
    var columns := ExtractColumns(schema.extractors, item.members, item.name).value;
    var first := Columns.ExtractColumn(schema.extractors, item.members[0], item.name);
    assert first == Ok(columns[0]);
    Columns.ExtractColumnName(schema.extractors, item.members[0], item.name);
    assert Table(schema, item).value.key.primary.name == columns[0].name;
  }

  // ---------------------------------------------------------------------------
  // Emission: record values.

  function SerializeCalls(cols: seq<Column>, withSelf: bool): (r: seq<string>)
    ensures |r| == |cols|
    ensures forall i :: 0 <= i < |cols| ==> r[i] == Columns.SerializeMemberCall(cols[i], withSelf)
  {
    if cols == [] then []
    else SerializeCalls(cols[..|cols| - 1], withSelf) + [Columns.SerializeMemberCall(cols[|cols| - 1], withSelf)]
  }

  function ValuesImplHeader(t: TableStructure, iPath: string): seq<string> {
    ["pub impl " + t.name + "RecordValues of " + iPath + "::RecordValues<" + t.implName + ", " + t.name + "> {",
     "fn serialize_values(self: @" + t.name + ", ref data: Array<felt252>) {"]
  }

  function ValuesImplLines(t: TableStructure, iPath: string): seq<string> {
    ValuesImplHeader(t, iPath) + SerializeCalls(NonKeyColumns(t.columns), true) + ["}", "}"]
  }

  /** `cwrite_values_impls`: one `self.`-prefixed serialisation call per non-key
      column, in declaration order. */
  method WriteValuesImpls(t: TableStructure, buf: Writer, iPath: string)
    modifies buf
    ensures buf.text == old(buf.text) + Unlines(ValuesImplLines(t, iPath))
  {
    var header := ValuesImplHeader(t, iPath);
    buf.WriteLines(header);
    ghost var written := header;
    for i := 0 to |t.columns|
      invariant written == header + SerializeCalls(NonKeyColumns(t.columns[..i]), true)
      invariant buf.text == old(buf.text) + Unlines(written)
    {
      NonKeySnoc(t.columns, i);
      if !t.columns[i].key {
        var call := Columns.SerializeMemberCall(t.columns[i], true);
        SerializeCallsSnoc(NonKeyColumns(t.columns[..i]), t.columns[i], true);
        UnlinesSnoc(written, call);
        ConcatAssoc(old(buf.text), Unlines(written), call);
        ConcatAssoc(old(buf.text), Unlines(written) + call, "\n");
        Columns.WriteSerializeMemberCall(t.columns[i], true, buf);
        ConcatAssoc(header, SerializeCalls(NonKeyColumns(t.columns[..i]), true), [call]);
        written := written + [call];
      }
    }
    assert t.columns[..|t.columns|] == t.columns;
    UnlinesAppend(written, ["}", "}"]);
    ConcatAssoc(old(buf.text), Unlines(written), Unlines(["}", "}"]));
    buf.WriteLines(["}", "}"]);
  }

  lemma NonKeySnoc(cols: seq<Column>, i: nat)
    requires i < |cols|
    ensures cols[i].key ==> NonKeyColumns(cols[..i + 1]) == NonKeyColumns(cols[..i])
    ensures !cols[i].key ==> NonKeyColumns(cols[..i + 1]) == NonKeyColumns(cols[..i]) + [cols[i]]
  {
    assert cols[..i + 1][..i] == cols[..i];
  }

  lemma SerializeCallsSnoc(cols: seq<Column>, c: Column, withSelf: bool)
    ensures SerializeCalls(cols + [c], withSelf) == SerializeCalls(cols, withSelf) + [Columns.SerializeMemberCall(c, withSelf)]
  {
    assert (cols + [c])[..|cols|] == cols;
  }

  lemma SerializeCallFree(c: Column, withSelf: bool)
    requires Free(c.memberImplName, '\n') && Free(c.member, '\n')
    ensures Free(Columns.SerializeMemberCall(c, withSelf), '\n')
  {
  }

  /** Read back line by line, the record-values implementation of an assembled
      table is its two header lines, then one `self.`-prefixed serialisation
      call per column after the kept keys, in declaration order, then two
      closing braces: no key column appears, whatever the key type. */
  lemma ValuesImplReadBack(t: TableStructure, iPath: string)
    requires ValidTable(t)
    requires Free(t.name, '\n') && Free(t.implName, '\n') && Free(iPath, '\n') && ColumnsFree(t.columns, '\n')
    ensures Lines(Unlines(ValuesImplLines(t, iPath))) ==
      ValuesImplHeader(t, iPath) + SerializeCalls(t.columns[KeptKeys(t)..], true) + ["}", "}"]
  {
    TablePartition(t);
    var calls := SerializeCalls(NonKeyColumns(t.columns), true);
    var rest := t.columns[KeptKeys(t)..];
    forall j | 0 <= j < |calls| ensures Free(calls[j], '\n') {
      SerializeCallFree(rest[j], true);
    }
    ValuesHeaderFree(t, iPath);
    AllFreeAppend(ValuesImplHeader(t, iPath), calls, '\n');
    AllFreeAppend(ValuesImplHeader(t, iPath) + calls, ["}", "}"], '\n');
    LinesUnlines(ValuesImplLines(t, iPath));
  }

  lemma ValuesHeaderFree(t: TableStructure, iPath: string)
    requires Free(t.name, '\n') && Free(t.implName, '\n') && Free(iPath, '\n')
    ensures AllFree(ValuesImplHeader(t, iPath), '\n')
  {
  }

  // ---------------------------------------------------------------------------
  // Templated key implementations.

  /** The arguments of `keyed_impls_tpl`. */
  datatype KeyedImplsArgs = KeyedImplsArgs(
    iTablePath: string,
    name: string,
    implName: string,
    keyTypes: string,
    snappedKeyTypes: string,
    serializeCalls: string,
    keyMembers: string,
    selfKeyMembers: string)

  /** The arguments of `single_key_impls_tpl`. */
  datatype SingleKeyImplsArgs = SingleKeyImplsArgs(
    iTablePath: string,
    name: string,
    implName: string,
    keyType: string,
    member: string,
    memberImplName: string)

  /** The two templates, whose text the model does not fix. */
  datatype Templates = Templates(
    keyed: KeyedImplsArgs -> string,
    singleKey: SingleKeyImplsArgs -> string)

  function CairoTypes(r: Renderers, cols: seq<Column>): (res: seq<string>)
    ensures |res| == |cols|
    ensures forall i :: 0 <= i < |cols| ==> res[i] == r.toCairo(cols[i].ty)
  {
    if cols == [] then [] else [r.toCairo(cols[0].ty)] + CairoTypes(r, cols[1..])
  }

  function Snapshots(types: seq<string>): (res: seq<string>)
    ensures |res| == |types|
    ensures forall i :: 0 <= i < |types| ==> res[i] == "@" + types[i]
  {
    if types == [] then [] else ["@" + types[0]] + Snapshots(types[1..])
  }

  function MemberNames(cols: seq<Column>, prefix: string): (res: seq<string>)
    ensures |res| == |cols|
    ensures forall i :: 0 <= i < |cols| ==> res[i] == prefix + cols[i].member
  {
    if cols == [] then [] else [prefix + cols[0].member] + MemberNames(cols[1..], prefix)
  }

  /** What `get_keyed_impls` hands to its template, built from the key columns. */
  function KeyedArgs(r: Renderers, t: TableStructure, iTablePath: string): KeyedImplsArgs {
    var keys := KeyColumns(t.columns);
    var keyTypes := CairoTypes(r, keys);
    KeyedImplsArgs(
      iTablePath, t.name, t.implName,
      Join(keyTypes, ','),
      Join(Snapshots(keyTypes), ','),
      Join(SerializeCalls(keys, false), '\n'),
      Join(MemberNames(keys, ""), ','),
      Join(MemberNames(keys, "self."), ','))
  }

  /** `get_keyed_impls`. */
  function GetKeyedImpls(tpl: Templates, r: Renderers, t: TableStructure, iTablePath: string): string {
    tpl.keyed(KeyedArgs(r, t, iTablePath))
  }

  lemma KeyTypesSplit(r: Renderers, keys: seq<Column>)
    requires |keys| > 0
    requires forall i :: 0 <= i < |keys| ==> SeparatorFree(r, keys[i])
    ensures Split(Join(CairoTypes(r, keys), ','), ',') == CairoTypes(r, keys)
    ensures Split(Join(Snapshots(CairoTypes(r, keys)), ','), ',') == Snapshots(CairoTypes(r, keys))
  {
    SplitJoin(CairoTypes(r, keys), ',');
    SplitJoin(Snapshots(CairoTypes(r, keys)), ',');
  }

  lemma MemberNamesSplit(r: Renderers, keys: seq<Column>, prefix: string)
    requires |keys| > 0 && Free(prefix, ',')
    requires forall i :: 0 <= i < |keys| ==> SeparatorFree(r, keys[i])
    ensures Split(Join(MemberNames(keys, prefix), ','), ',') == MemberNames(keys, prefix)
  {
    SplitJoin(MemberNames(keys, prefix), ',');
  }

  lemma SerializeCallsSplit(r: Renderers, keys: seq<Column>)
    requires |keys| > 0
    requires forall i :: 0 <= i < |keys| ==> SeparatorFree(r, keys[i])
    ensures Split(Join(SerializeCalls(keys, false), '\n'), '\n') == SerializeCalls(keys, false)
  {
    forall i | 0 <= i < |keys| ensures Free(SerializeCalls(keys, false)[i], '\n') {
      SerializeCallFree(keys[i], false);
    }
    SplitJoin(SerializeCalls(keys, false), '\n');
  }

  /** A column whose member and Cairo type hold no `,` and whose member and
      binding name hold no newline. */
  predicate SeparatorFree(r: Renderers, c: Column) {
    Free(c.member, ',') && Free(r.toCairo(c.ty), ',') && Free(c.member, '\n') && Free(c.memberImplName, '\n')
  }

  lemma {:induction false} KeyColumnsSeparatorFree(r: Renderers, cols: seq<Column>)
    requires forall i :: 0 <= i < |cols| ==> SeparatorFree(r, cols[i])
    ensures forall i :: 0 <= i < |KeyColumns(cols)| ==> SeparatorFree(r, KeyColumns(cols)[i])
  {
    if cols != [] {
      var init := cols[..|cols| - 1];
      assert forall i :: 0 <= i < |init| ==> init[i] == cols[i];
      KeyColumnsSeparatorFree(r, init);
    }
  }

  /** The lists `get_keyed_impls` joins all run over the same key columns in
      the same order: split at their separators, the i-th entries are the i-th
      key column's member, that member behind `self.`, its Cairo type, that
      type behind `@`, and its serialisation call without `self.`. */
  lemma KeyedArgsAligned(r: Renderers, t: TableStructure, iTablePath: string)
    requires |KeyColumns(t.columns)| > 0
    requires forall i :: 0 <= i < |t.columns| ==> SeparatorFree(r, t.columns[i])
    ensures var a := KeyedArgs(r, t, iTablePath);
      var keys := KeyColumns(t.columns);
      && Split(a.keyMembers, ',') == MemberNames(keys, "")
      && Split(a.selfKeyMembers, ',') == MemberNames(keys, "self.")
      && Split(a.keyTypes, ',') == CairoTypes(r, keys)
      && Split(a.snappedKeyTypes, ',') == Snapshots(CairoTypes(r, keys))
      && Split(a.serializeCalls, '\n') == SerializeCalls(keys, false)
  {
    var keys := KeyColumns(t.columns);
    KeyColumnsSeparatorFree(r, t.columns);
    KeyTypesSplit(r, keys);
    MemberNamesSplit(r, keys, "");
    assert Free("self.", ',');
    MemberNamesSplit(r, keys, "self.");
    SerializeCallsSplit(r, keys);
  }

  /** The first key column, if any. */
  function FirstKey(cols: seq<Column>): (r: Option<Column>)
    ensures r.None? <==> forall i :: 0 <= i < |cols| ==> !cols[i].key
    ensures r.Some? ==>
      exists i ::
        && 0 <= i < |cols| && cols[i] == r.value && r.value.key
        && (forall j :: 0 <= j < i ==> !cols[j].key)
  {
    if cols == [] then None
    else if cols[0].key then Some(cols[0])
    else
      var rest := FirstKey(cols[1..]);
      assert forall i :: 0 <= i < |cols[1..]| ==> cols[1..][i] == cols[i + 1];
      rest
  }

  /** `get_single_key_impls`; `None` is the `unwrap` on a table without key column. */
  function GetSingleKeyImpls(tpl: Templates, r: Renderers, t: TableStructure, iTablePath: string): Option<string> {
    match FirstKey(t.columns)
    case None => None
    case Some(key) =>
      Some(tpl.singleKey(SingleKeyImplsArgs(iTablePath, t.name, t.implName, r.toCairo(key.ty), key.member, key.memberImplName)))
  }

  /** On an assembled table the single-key template is given the first column
      when keys are kept, and cannot be reached when none is (no key column, or
      the key was promoted to the primary). */
  lemma SingleKeyOfValidTable(tpl: Templates, r: Renderers, t: TableStructure, iTablePath: string)
    requires ValidTable(t)
    ensures KeptKeys(t) >= 1 ==>
      var c := t.columns[0];
      GetSingleKeyImpls(tpl, r, t, iTablePath) ==
        Some(tpl.singleKey(SingleKeyImplsArgs(iTablePath, t.name, t.implName, r.toCairo(c.ty), c.member, c.memberImplName)))
    ensures KeptKeys(t) == 0 ==> GetSingleKeyImpls(tpl, r, t, iTablePath).None?
  {
    if KeptKeys(t) >= 1 {
      var c := FirstKey(t.columns).value;
      var i :| 0 <= i < |t.columns| && t.columns[i] == c && c.key && forall j :: 0 <= j < i ==> !t.columns[j].key;
      assert t.columns[0].key;
    }
  }
}
