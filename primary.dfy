/** The whole-record identity field (`primary.rs`): the primary-eligible type
    descriptors, the conversion of a column into a primary, and the emission of
    its serialisation call. */
module Primaries {
  import opened Common
  import opened Text
  import Columns

  /** A primary-eligible type descriptor, as the type library defines it. */
  datatype PrimaryTypeDef = PrimaryTypeDef(descriptor: string)

  /** The closed set of descriptor shapes a primary may carry. */
  datatype PrimaryTypeDefVariant = Default | TypeDef(def: PrimaryTypeDef) | Fn(path: string)

  /** A primary keeps only these four fields of the column it came from; the
      column's id, key flag, member, selector and member binding are dropped. */
  datatype Primary = Primary(
    name: string,
    attributes: seq<AttributeVariant>,
    ty: string,
    typeDef: PrimaryTypeDefVariant)

  /** `TryFrom<Column> for Primary`: the name, residual attributes and type text
      are copied unchanged; the descriptor goes through `toPrimary`, the
      library's conversion to a primary-eligible descriptor, and the
      conversion's failure is the only failure. */
  function TryFromColumn(toPrimary: TypeDefVariant -> Result<PrimaryTypeDefVariant>, column: Columns.Column): (r: Result<Primary>)
    ensures r.Ok? <==> toPrimary(column.typeDef).Ok?
    ensures r.Ok? ==>
      && r.value.name == column.name
      && r.value.attributes == column.attributes
      && r.value.ty == column.ty
      && Ok(r.value.typeDef) == toPrimary(column.typeDef)
    ensures r.Err? ==> r.error == toPrimary(column.typeDef).error
  {
    match toPrimary(column.typeDef)
    case Err(e) => Err(e)
    case Ok(td) => Ok(Primary(column.name, column.attributes, column.ty, td))
  }

  const PrimaryDataOpen := "::serialize_primary::<_, {["
  const PrimaryDataClose := ">(data);\n"

  /** The primary serialisation call: metadata, then type. */
  function PrimaryDataText(r: Renderers, p: Primary, iPath: string): string {
    iPath + PrimaryDataOpen + r.metaData(p.name, p.attributes) + "]}, " + r.writeType(p.ty) + PrimaryDataClose
  }

  /** `cwrite_primary_data`: five pieces written one after the other. */
  method WritePrimaryData(r: Renderers, p: Primary, buf: Writer, iPath: string)
    modifies buf
    ensures buf.text == old(buf.text) + PrimaryDataText(r, p, iPath)
  {
    buf.Write(iPath + PrimaryDataOpen);
    buf.Write(r.metaData(p.name, p.attributes));
    buf.Write("]}, ");
    buf.Write(r.writeType(p.ty));
    buf.Write(PrimaryDataClose);
  }

  /** The call opens with the path and `::serialize_primary::<_, {[`, closes
      with `>(data);` and a newline, and holds the metadata before the type. */
  lemma PrimaryDataShape(r: Renderers, p: Primary, iPath: string)
    ensures var text := PrimaryDataText(r, p, iPath);
      var head := iPath + PrimaryDataOpen;
      var meta := r.metaData(p.name, p.attributes);
      var ty := r.writeType(p.ty);
      && |head| + |meta| + 4 + |ty| + |PrimaryDataClose| == |text|
      && text[..|head|] == head
      && text[|head|..|head| + |meta|] == meta
      && text[|head| + |meta| + 4..|head| + |meta| + 4 + |ty|] == ty
      && text[|text| - |PrimaryDataClose|..] == PrimaryDataClose
  {
  }
}
