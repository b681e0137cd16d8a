/** The parsed item the attribute is applied to, as abstract records: attributes, visibility,
    types, fields and the struct itself, plus the macro's arguments and its failures. */
module Ast {
  import opened Wrappers

  type Ident = string

  /** A path such as `serde::Serialize`, as its segment identifiers. */
  type SynPath = seq<Ident>

  /** An attribute on the struct or on one of its fields. `doc`, `cfg` and `derive` attributes
      are always represented by their own constructors, never by `OtherAttr`. */
  datatype Attr =
    | DocAttr(text: string)              // `/// text`, i.e. `#[doc = "text"]`
    | CfgAttr(condition: string)         // `#[cfg(condition)]`
    | DeriveAttr(paths: seq<SynPath>)    // `#[derive(P1, P2, ..)]`, already split into paths
    | OtherAttr(path: SynPath, args: string) // any other attribute, e.g. `#[serde(default)]`

  /** `pub`, `pub(crate)` / `pub(in path)`, or no modifier at all. */
  datatype Vis = Inherited | Public | Restricted(path: SynPath)

  /** A type: a path whose segments may carry generic arguments, or any other type form. */
  datatype Ty = PathTy(segments: seq<Segment>) | OtherTy(tokens: string)
  datatype Segment = Segment(ident: Ident, args: seq<Ty>)

  datatype Field = Field(attrs: seq<Attr>, vis: Vis, ident: Ident, ty: Ty)

  /** The three struct shapes; only `Named` can be compacted. */
  datatype Fields = Named(named: seq<Field>) | Unnamed(unnamed: seq<Field>) | Unit

  datatype Struct = Struct(attrs: seq<Attr>, vis: Vis, ident: Ident, fields: Fields)

  /** The macro's arguments with their defaults (src/args.rs). */
  datatype Args = Args(
    getterPrefix: Option<string>,
    setterPrefix: Option<string>,
    privateGetters: bool,
    privateSetters: bool,
    documentSetters: bool,
    owningSetters: bool)

  const DefaultArgs := Args(None, None, false, false, false, false)

  /** Why an expansion produced no output: a reported error, or the panic on too many flags. */
  datatype Failure = Custom(message: string) | FlagOverflowPanic(boolCount: nat)

  const NamedOnlyMessage := "Only structs with named fields are supported!"

  /** `#[cfg]` conditions are opaque; `active` is the set of conditions that hold in a build. */
  predicate Enabled(attrs: seq<Attr>, active: set<string>)
  {
    forall a :: a in attrs && a.CfgAttr? ==> a.condition in active
  }
}
