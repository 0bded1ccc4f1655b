# Table schema compiler for a Cairo table macro

The table macro turns an annotated Cairo struct into a table model and renders
that model as Cairo source text. This project models the deterministic core of
that pipeline in Dafny and proves properties of the model.

- **Column construction** (`column.rs`, module `Columns`, file `column.dfy`). Each field
  attribute is dispatched in order: a type modifier is folded into an accumulator;
  `name(..)` and `id(..)` need exactly one unnamed argument and set an override,
  `id` through the felt encoder; `index` is replaced by an attribute of its own
  (see below); anything else passes through. A `Column` is then built from the member:
  - the selector is the hash of the member name;
  - the id is the override, else the selector;
  - the display name is the override, else the quoted member name;
  - the `key` flag says whether a bare `key` marker is present;
  - the member binding name is the struct name followed by the member name;
  - the type descriptor comes from the type resolver.
- **Key-prefix validation and table assembly** (`structure.rs`, module `Structure`). `get_keys_index`
  accepts the columns only when the key columns are a leading run, and returns the
  length of that run. `iextract` promotes a sole leading key to the record's
  primary when the first member has a primary-eligible type, and removes that
  column. Otherwise the key is `Custom(k)`. The derived names are `<name>Structure`
  and `<name>Column`.
- **The primary** (`primary.rs`, module `Primaries`): the conversion of a column into a
  `Primary` and the emission of its serialisation call.
- **Text emission**: every `cwrite_*` emitter, plus the argument
  construction of the keyed and single-key templates.
  - The `fmt::Write` sink is `Text.Writer`, a class whose `text` field only
    grows.
  - Each emitter is a method that writes into it, proved equal to a function that
    gives the expected text. Properties of the emitted text are lemmas about
    those functions.
  - The properties cover: reading the text back as lines, splitting joined lists,
    decimals that read back as the count, and bracket balance.

Everything the core calls but whose code is not part of this model is passed in
as a function-valued field:
- `Columns.Extractors`: the keccak hash, the felt encoder, quoting, the
  type-modifier recogniser and folder, and `get_type_def`;
- `Structure.Schema`: `is_primary_type`, the conversion to a primary-eligible
  descriptor, and the primary the table carries without promotion;
- `Common.Renderers`: the metadata, type, attribute-count and comma-wrapping
  writers, and `to_cairo`;
- `Structure.Templates`: the two templates.

The model therefore holds for every behaviour of those collaborators.

## Readings of the source

The source does not compile as written. The model takes one consistent reading of it:

- `KeyType::Primary` is declared with a `String` (structure.rs:12) but built
  from a converted `Primary` (structure.rs:60); the model's `KeyType.Primary`
  carries the `Primary`, and `record_id` reads its `name`.
- `TableStructure.primary` is declared (structure.rs:20) but never set
  (structure.rs:65-72); the model sets it to the promoted primary, or to the
  `fallbackPrimary` of the schema under `Custom` keys.
- The field is declared `column_mod_name` (structure.rs:24) and read as
  `columns_mod_name` (structure.rs:78); the model has one field, `columnsModName`.
- The `Custom` arm of `cwrite_id_impls` (structure.rs:128) yields `()` instead
  of a result; the model writes nothing there.
- `serialize_member_call` takes a `const SELF` (column.rs:118) that its callers
  omit. The record-values emitter (structure.rs:146) is read with `self.`
  because `serialize_values` receives `self`. `get_keyed_impls` (structure.rs:154)
  is read without it, because that function builds a separate `self.`-prefixed
  member list. There the call is used as a value: the model takes the call text
  without its newline and joins the calls with `\n`.
- `cwrite_id_impls` (structure.rs:112-130) emits a record-identity
  implementation only under a promoted primary. The single-key and keyed
  variants come from `get_single_key_impls` and `get_keyed_impls`.
- `index` becomes `AttributeVariant::lazy_empty_i_attribute("index")`
  (column.rs:88), whose body is not part of this model. The model reads it as one
  argument-less attribute named `index` that is kept in the residual list.
- Under `Custom` the column list stays unchanged (structure.rs:61-62, 69), key
  columns included (`Structure.TablePromotion`).
- The `record_id` accessor (structure.rs:125) interpolates the primary's
  `field`. The promoted `Primary` keeps only the column's display `name`
  (primary.rs:62-67), so the model's accessor reads that name. Without a
  `name(..)` directive it is the quoted member name (column.rs:105), so even the
  corrected line `self.<name>` names the member only where quoting leaves a name
  unchanged (`Structure.PromotedAccessorName`).

## Model

| member | source | states |
|---|---|---|
| `Structure.GetKeysIndex` | packages/macros/src/structure.rs:37-48 | The counter loop returns `Ok(k)` with `k` the number of key columns exactly when no key column follows a non-key column, and `Err(KeysNotFirst)` otherwise; a key after a non-key always gives `KeysNotFirst`. |
| `Structure.KeysIndexSpec` | packages/macros/src/structure.rs:37-48 | Validation succeeds iff every key column sits at an index below the number of key columns; on success the result `k` is at most the column count, columns `0..k` are keys and none from `k` on is. |
| `Structure.ExtractColumns` | packages/macros/src/structure.rs:54 | Extracting every member succeeds iff each member yields a column; then there is one column per member, in member order; on failure the error is that of a failing member all of whose predecessors succeed. |
| `Structure.ExtractTable` | packages/macros/src/structure.rs:53-73 | Assembly with the promoted column removed from the column list gives exactly the reference assembly `Table`. |
| `Structure.TableIsValid` | packages/macros/src/structure.rs:55-72 | Every assembled table has no struct attributes, the derived names, and its key columns exactly where its key type says: none under a promoted primary, the first `k` under `Custom(k)`. |
| `Structure.TablePromotion` | packages/macros/src/structure.rs:59-63 | The key is `Primary` iff there is exactly one key column and the first member has a primary type; then the columns are the extracted ones without the first and the primary is the conversion of the first; otherwise the key is `Custom(key count)` and the columns are unchanged. |
| `Structure.TableFails` | packages/macros/src/structure.rs:54-60 | Assembly fails iff a column fails, or the keys are not a leading run, or promotion applies and the first column's descriptor has no primary-eligible counterpart. |
| `Structure.TableDerivedNames` | packages/macros/src/structure.rs:56-68 | The table is named after the struct, its implementation and column module are `<name>Structure` and `<name>Column`, and its attribute list is empty, whatever the members. |
| `Structure.TableKeysNotFirst` | packages/macros/src/structure.rs:37-55 | When every member yields a column, a member marked `key` after an unmarked one makes assembly fail with `KeysNotFirst`. |
| `Structure.TableWithoutKeys` | packages/macros/src/structure.rs:55-62 | When every member yields a column and none is marked `key`, assembly succeeds with key `Custom(0)` and keeps every column. |
| `Structure.PartitionMembers` | packages/macros/src/structure.rs:143-151 | The key filter keeps exactly the key columns and the non-key filter exactly the others. |
| `Structure.TablePartition` | packages/macros/src/structure.rs:143-151 | In an assembled table the key filter yields the first `KeptKeys` columns and the non-key filter all the columns after them. |
| `Structure.WriteColumnMods` | packages/macros/src/structure.rs:77-83 | Appends the module header line, one constant line per column in order, and the closing brace line. |
| `Structure.ColumnModsReadBack` | packages/macros/src/structure.rs:77-83 | Read back as lines, the column namespace has two lines more than there are columns: `pub mod <name>Column {`, then `pub const <member> = <id>;` for column `i` at line `i + 1`, then `}`. |
| `Structure.WriteStructureImpl` | packages/macros/src/structure.rs:84-104 | Appends the implementation header, the primary type, the attribute count, the column count, the attribute, primary and column routines (one definition call per column, in order) and the closing brace, with `serialise_attributes` closed. |
| `Structure.StructureImplColumnCount` | packages/macros/src/structure.rs:89 | The structure implementation contains `const COLUMN_COUNT = d;` where `d` is a decimal numeral without leading zero that reads back as the number of columns. |
| `Structure.AttributesRoutineBraces` | packages/macros/src/structure.rs:90-94 | With a brace-neutral path and attribute list, the `serialise_attributes` text as written leaves one `{` open; closed, it is balanced. |
| `Structure.StructureImplAsWrittenBraces` | packages/macros/src/structure.rs:84-104 | Whatever the collaborators write, the whole structure implementation as written has one `}` fewer than the corrected one, so its brace balance is one higher. |
| `Structure.WriteMemberImpls` | packages/macros/src/structure.rs:106-110 | Appends one member-binding line per column, in order, each naming the structure implementation. |
| `Structure.MemberImplsReadBack` | packages/macros/src/structure.rs:106-110 | Read back as lines, the bindings are exactly one line per column, line `i` being `pub impl <binding> = <path>::MemberImpl<<name>Structure, <id>, <type>>;` for column `i`. |
| `Structure.WriteIdImpls` | packages/macros/src/structure.rs:112-130 | Under a promoted primary, appends the `RecordPrimary` header, the `record_id` signature, the accessor of the primary's name and two closing braces; under `Custom` keys, appends nothing. |
| `Structure.IdImplParens` | packages/macros/src/structure.rs:117-126 | With parenthesis-free names and path, the record-identity text as written closes one parenthesis more than it opens; the corrected text is balanced. |
| `Structure.PromotedAccessorName` | packages/macros/src/structure.rs:125 | For a promoted primary whose first member has no `name(..)` directive, the accessor line reads `self.` and the quoted member name, with the stray `)` as written and without it when corrected. |
| `Structure.WriteValuesImpls` | packages/macros/src/structure.rs:132-148 | Appends the two header lines, one `self.`-prefixed serialisation call per non-key column in declaration order, and two closing brace lines. |
| `Structure.ValuesImplReadBack` | packages/macros/src/structure.rs:132-148 | Read back as lines, the record-values text of an assembled table is its header, then the calls of exactly the columns after the kept keys, in order, then `}` twice; no key column appears, whatever the key type. |
| `Structure.KeyedArgsAligned` | packages/macros/src/structure.rs:150-167 | `Structure.GetKeyedImpls` hands the keyed template `Structure.KeyedArgs`: the path and both names, and five lists joined from the key columns. Split at their separators, the five joined template arguments are lists over the same key columns in the same order: the members, the `self.` members, the Cairo types, the `@` types and the serialisation calls. |
| `Structure.FirstKey` | packages/macros/src/structure.rs:170 | Finds no column iff no column is a key; otherwise it finds a key column before which no column is a key. |
| `Structure.SingleKeyOfValidTable` | packages/macros/src/structure.rs:169-179 | `Structure.GetSingleKeyImpls` hands the single-key template the first key column (`Structure.FirstKey`). On an assembled table with kept keys the single-key template gets the first column's Cairo type, member and binding name; with none kept the `unwrap` fails. |
| `Columns.ColumnAttributes.constructor` | packages/macros/src/column.rs:58-65 | A fresh attribute parser has an empty type modifier and no name or id override. |
| `Columns.ColumnAttributes.ParseAttribute` | packages/macros/src/column.rs:77-91 | One dispatch step updates the parser's fields and returns the leftover attributes exactly as `ParseStep` says; on an error nothing changes. |
| `Columns.ExtractAttributes` | packages/macros/src/column.rs:99 | Running a fresh parser over the member's attributes in order, stopping at the first error, gives exactly the reference dispatch `ExtractAll`. |
| `Columns.ExtractFromSpec` | packages/macros/src/column.rs:82-90 | Dispatch succeeds iff the type-modifier fold succeeds and no `name`/`id` directive is rejected. The accumulator is then the fold, and each override comes from the last directive of its kind. The residual list holds every other attribute in order, with `index` reduced to an empty attribute. |
| `Columns.ExtractColumn` | packages/macros/src/column.rs:98-114 | A built column has the hashed member name as selector, the member name as member, the struct name followed by the member name as binding, the member's type, and the `key` flag iff a bare `key` marker is present. |
| `Columns.ExtractColumnFails` | packages/macros/src/column.rs:99-110 | Column construction fails iff the type-modifier fold fails, some `name`/`id` directive is rejected, or the type resolver refuses the folded modifiers. |
| `Columns.ExtractColumnId` | packages/macros/src/column.rs:87-104 | With no `id(..)` directive the id equals the selector; otherwise the last directive has one unnamed argument and the id is its felt encoding; the selector is the hash of the member name in both cases. |
| `Columns.ExtractColumnName` | packages/macros/src/column.rs:86-105 | With no `name(..)` directive the display name is the quoted member name; otherwise it is the single unnamed argument of the last directive. |
| `Columns.ExtractColumnAttributes` | packages/macros/src/column.rs:88-109 | The column's attribute list is the residual list of the member's attributes. |
| `Columns.WriteSerializeMemberCall` | packages/macros/src/column.rs:118-125 | Appends `<binding>::serialize_member(<self.?><member>, ref data);` and a newline, `self.` exactly when `SELF` is set. |
| `Columns.WriteColumnMod` | packages/macros/src/column.rs:127-129 | Appends exactly `pub const <member> = <id>;` and a newline. |
| `Columns.WriteColumnDef` | packages/macros/src/column.rs:131-137 | Appends the column definition call: the path and id, the metadata, the type, then the closing arguments, in five writes. |
| `Columns.WriteMemberImpl` | packages/macros/src/column.rs:139-150 | Appends the member binding of the column's binding name to the structure implementation, its id and type, and a newline. |
| `Primaries.TryFromColumn` | packages/macros/src/primary.rs:59-69 | The conversion succeeds iff the descriptor conversion succeeds; it then copies the name, attributes and type unchanged and keeps the converted descriptor, and otherwise returns the descriptor conversion's error. |
| `Primaries.WritePrimaryData` | packages/macros/src/primary.rs:28-34 | Appends the primary serialisation call in five writes: the path and opening, the metadata, `]}, `, the type and the closing `>(data);`. |
| `Primaries.PrimaryDataShape` | packages/macros/src/primary.rs:28-34 | The primary call starts with `<path>::serialize_primary::<_, {[`, holds the metadata, then after `]}, ` the type, and ends with `>(data);` and a newline. |

## Findings

| source | as written | input that shows it | evidently intended | confidence | as-written member | corrected member |
|---|---|---|---|---|---|---|
| packages/macros/src/structure.rs:90-94 | `serialise_attributes` opens its body with `{` but nothing writes the closing `}` before `fn serialize_primary` starts | any table, e.g. path `p` and an attribute writer whose output holds no brace: the routine's text has one more `{` than `}` | a `}\n` after the attribute serialisation call, as the two other routines have | not executed | `Structure.AttributesRoutineAsWritten`, shown by `Structure.AttributesRoutineBraces` | `Structure.AttributesRoutine`, balanced by `Structure.AttributesRoutineBraces`, used by `Structure.WriteStructureImpl` |
| packages/macros/src/structure.rs:125 | the `record_id` body is `self.{field})`, with a `)` that closes nothing | any promoted primary, e.g. a key member `id` of primary type without `name(..)`: the accessor line is `self.` followed by the quoted member name and a `)` | `self.{field}` | not executed | `Structure.RecordIdLineAsWritten` in `Structure.IdImplLinesAsWritten`, shown by `Structure.IdImplParens` | `Structure.RecordIdLine` in `Structure.IdImplLines`, balanced by `Structure.IdImplParens`, used by `Structure.WriteIdImpls` |

## Left out

- Writing to the `fmt::Write` sink never fails in the model, so the `?` propagation of write errors is not modelled.
- The collaborators whose code is not part of this model are parameters:
  - `string_to_keccak_hex`, `id_string_to_felt`, `quoted`;
  - the type-modifier recogniser and folder, `get_type_def`, `is_primary_type`, and the descriptor conversion inside `TryFrom`;
  - `cwrite_meta_data`, `ty.cwrite`, `to_cairo`, `cwrite_attribute_count`, `cwrite_csv_wrapped_str`;
  - `keyed_impls_tpl` and `single_key_impls_tpl`.

  Their own text and failure rules are therefore not fixed.
- The setters that `#[macro_attributes]` generates are macro output and are not part of this model. `name(..)` and `id(..)` are taken to overwrite (the last directive wins).
- The generic `extract_attributes` driver is not part of this model. It is taken to run `parse_attribute` over the attributes in order and stop at the first error.
- The `key` marker is read from the member's attribute list as given. Whether `extract_attributes` removes attributes from the member before that test is not visible.
- The collection adaptor `iextracts_with` is not part of this model. It is taken to extract the members in order and stop at the first error (`Structure.ExtractColumns`).
- `Structure.ExtractTable` works on a `seq`: `columns.remove(0)` becomes a new sequence without the first column, so in-place update of the vector is not modelled.
- `Structure.GetSingleKeyImpls` returns `None` where the source's `unwrap` panics.
- Counts are unbounded naturals; `usize` overflow cannot arise for column lists that fit in memory.
- Strings are sequences of characters; no encoding is modelled.
- The getter traits (`INameTrait`, `IFieldTrait`, `ITyTrait`, `IAttributesTrait`) and `TableMemberTrait` are plain field reads and a schema parameter. The commented-out `IExtract for Primary` is dead code.
- Determinism and idempotence of emission hold by construction, since every emitted text is a function of its inputs; no separate lemma states them.
- `Structure.KeyedArgsAligned` holds only for tables with at least one key column, whose key columns' member names and Cairo types hold no `,` and whose member and binding names hold no newline; with no key column every joined list is empty and splits into one empty entry, and with a separator inside a name a split does not recover the list.
- `Structure.ColumnModsReadBack`, `Structure.MemberImplsReadBack` and `Structure.ValuesImplReadBack` hold only for names, ids, types and paths without a newline.
- `Structure.AttributesRoutineBraces` and `Structure.IdImplParens` count brackets only, and only where the collaborators' output and the names are themselves balanced.
