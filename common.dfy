/** Shared vocabulary of the table macro: the error kinds, the result and
    option wrappers, the attribute syntax a field carries, and the opaque
    descriptors produced by the type library. */
module Common {

  /** The macro's error kinds. Collaborators (the identifier encoder, the
      type-modifier folder, the type resolver, the primary conversion) return
      values of this type too; which kind they pick is up to them. */
  datatype TableError =
    | KeysNotFirst
    | AttributeArity(path: string)
    | UnsupportedType(ty: string)
    | PrimaryConversion(detail: string)
    | IdEncoding(literal: string)
    | TypeModError(path: string)

  datatype Option<+T> = None | Some(value: T) {
    /** The `unwrap_or_else` of the source: the carried value, or the default. */
    function GetOr(default: T): T {
      match this
      case Some(v) => v
      case None => default
    }
  }

  /** `TableResult<T>` of the source. */
  datatype Result<+T> = Ok(value: T) | Err(error: TableError)

  /** One argument of a field attribute: `#[id("x")]` has one unnamed argument. */
  datatype Arg = Unnamed(value: string) | Named(argName: string, value: string)

  /** A field attribute as the syntax parser hands it over: its path and its arguments. */
  datatype Attribute = Attribute(path: string, args: seq<Arg>)

  /** What attribute dispatch leaves behind for a column: an attribute passed
      through unchanged, or an argument-less introspection attribute (`index`). */
  datatype AttributeVariant = Passed(attribute: Attribute) | EmptyIAttribute(name: string)

  /** The type-modifier accumulator the type-modifier attributes fold into.
      Its content is decided by the type library; the model only threads it. */
  datatype TypeMod = TypeMod(modifiers: seq<string>)

  /** The resolved type descriptor of a column, as produced by the type resolver. */
  datatype TypeDefVariant = TypeDefVariant(descriptor: string)

  /** The text producers the emitters call but whose output the model does not
      fix: the metadata writer of a column or primary (`cwrite_meta_data`), the
      type writer (`ty.cwrite`), the conversion of a type to Cairo text
      (`to_cairo`), the attribute-count writer and the comma-separated wrapper
      (`cwrite_attribute_count`, `cwrite_csv_wrapped_str`). */
  datatype Renderers = Renderers(
    metaData: (string, seq<AttributeVariant>) -> string,
    writeType: string -> string,
    toCairo: string -> string,
    attributeCount: seq<AttributeVariant> -> string,
    csvWrapped: (seq<AttributeVariant>, string, string) -> string)
}
