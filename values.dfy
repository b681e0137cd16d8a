/** Run-time values of the two generated struct shapes. A flat value maps the name of each
    field compiled into the build to its value; a compacted value keeps the pass-through fields
    the same way and holds every packed bool in one flag set. */
module Values {
  import opened Wrappers
  import opened Ast
  import opened Bitflags

  datatype Value = BoolV(b: bool) | OptBoolV(o: Option<bool>) | Opaque(repr: string)

  type Record = map<Ident, Value>

  datatype CompactedValue = CompactedValue(others: Record, flags: FlagSet)
}
