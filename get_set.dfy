/** Accessor generation (src/impl_get_set.rs): names, visibility and documentation of the
    getter/setter pair of each packed field, and what those accessors do at run time. */
module GetSet {
  import opened Wrappers
  import opened Ast
  import opened Seqs
  import opened Bitflags
  import opened Classify
  import opened Values

  /** `extract_docs`: the `doc` attributes of a field, in order; nothing else is carried over. */
  function ExtractDocs(attrs: seq<Attr>): (r: seq<Attr>)
    ensures forall a :: a in r <==> a in attrs && a.DocAttr?
    ensures forall i :: 0 <= i < |r| ==> r[i].DocAttr?
  {
    Filter(attrs, (a: Attr) => a.DocAttr?)
  }

  /** `args_to_names`: getter and setter names, prefix then field name; the getter prefix
      defaults to nothing and the setter prefix to `set_`. */
  function ArgsToNames(args: Args, fieldName: Ident): (names: (Ident, Ident))
    ensures args.getterPrefix.None? ==> names.0 == fieldName
    ensures args.setterPrefix.None? ==> names.1 == "set_" + fieldName
    ensures args.getterPrefix.Some? ==> names.0 == args.getterPrefix.value + fieldName
    ensures args.setterPrefix.Some? ==> names.1 == args.setterPrefix.value + fieldName
  {
    var getterPrefix := if args.getterPrefix.Some? then args.getterPrefix.value else "";
    var setterPrefix := if args.setterPrefix.Some? then args.setterPrefix.value else "set_";
    (getterPrefix + fieldName, setterPrefix + fieldName)
  }

  lemma PrefixCancels(p: string, a: string, b: string)
    requires p + a == p + b
    ensures a == b
  {
    assert a == (p + a)[|p|..];
    assert b == (p + b)[|p|..];
  }

  /** Under one configuration, distinct fields get distinct getter names and distinct setter
      names. */
  lemma AccessorNamesInjective(args: Args, a: Ident, b: Ident)
    requires a != b
    ensures ArgsToNames(args, a).0 != ArgsToNames(args, b).0
    ensures ArgsToNames(args, a).1 != ArgsToNames(args, b).1
  {
    var gp := if args.getterPrefix.Some? then args.getterPrefix.value else "";
    var sp := if args.setterPrefix.Some? then args.setterPrefix.value else "set_";
    if gp + a == gp + b { PrefixCancels(gp, a, b); }
    if sp + a == sp + b { PrefixCancels(sp, a, b); }
  }

  /** tests/configuration.rs: `getter_prefix = "get_"` with the default setter prefix. */
  lemma ConfiguredNamesExample()
    ensures ArgsToNames(DefaultArgs.(getterPrefix := Some("get_")), "bool_1") == ("get_bool_1", "set_bool_1")
    ensures ArgsToNames(DefaultArgs, "is_cool") == ("is_cool", "set_is_cool")
  {
    assert "get_" + "bool_1" == "get_bool_1";
    assert "set_" + "bool_1" == "set_bool_1";
    assert "" + "is_cool" == "is_cool";
    assert "set_" + "is_cool" == "set_is_cool";
  }

  /** The getter's visibility as the source computes it: always the field's own, whatever
      `private_getters` says. */
  function GetterVisAsWritten(args: Args, field: Field): (r: Vis)
    ensures r == field.vis
  {
    field.vis
  }

  /** The getter's visibility as `private_getters` documents it. */
  function GetterVis(args: Args, field: Field): (r: Vis)
    ensures args.privateGetters ==> r == Inherited
    ensures !args.privateGetters ==> r == GetterVisAsWritten(args, field)
  {
    if args.privateGetters then Inherited else field.vis
  }

  /** The setter's visibility: private under `private_setters`, otherwise the getter's as the
      source computes it, which is the field's own. */
  function SetterVis(args: Args, field: Field): (r: Vis)
    ensures args.privateSetters ==> r == Inherited
    ensures !args.privateSetters ==> r == GetterVisAsWritten(args, field)
  {
    if args.privateSetters then Inherited else field.vis
  }

  /** With `private_getters` on, a `pub` field still gets a `pub` getter as written. */
  lemma PrivateGettersIgnoredAsWritten(field: Field)
    requires field.vis == Public
    ensures GetterVisAsWritten(DefaultArgs.(privateGetters := true), field) == Public
    ensures GetterVis(DefaultArgs.(privateGetters := true), field) == Inherited
  {
  }

  function SetterDoc(fieldName: Ident): string
  {
    "Sets the " + fieldName + " to the value provided."
  }

  datatype SetterStyle = InPlace | Owning

  /** One generated getter/setter pair. */
  datatype Accessor = Accessor(
    field: BoolField,
    getterDocs: seq<Attr>, getterVis: Vis, getterName: Ident,
    setterDocs: seq<Attr>, setterVis: Vis, setterName: Ident,
    style: SetterStyle)

  /** The pair generated for one packed field. The field's docs go to exactly one of the two:
      the getter by default, the setter with `document_setters`, which then leaves the getter
      undocumented; otherwise the setter gets a one-line description. */
  function AccessorFor(args: Args, bf: BoolField): (a: Accessor)
    ensures a.field == bf
    ensures (a.getterName, a.setterName) == ArgsToNames(args, bf.field.ident)
    ensures a.getterVis == GetterVis(args, bf.field) && a.setterVis == SetterVis(args, bf.field)
    ensures args.documentSetters ==> a.getterDocs == [] && a.setterDocs == ExtractDocs(bf.field.attrs)
    ensures !args.documentSetters ==>
      a.getterDocs == ExtractDocs(bf.field.attrs) && a.setterDocs == [DocAttr(SetterDoc(bf.field.ident))]
    ensures a.style == (if args.owningSetters then Owning else InPlace)
  {
    var fieldDocs := ExtractDocs(bf.field.attrs);
    var names := ArgsToNames(args, bf.field.ident);
    var docs := if args.documentSetters then ([], fieldDocs)
                else (fieldDocs, [DocAttr(SetterDoc(bf.field.ident))]);
    Accessor(bf, docs.0, GetterVis(args, bf.field), names.0,
             docs.1, SetterVis(args, bf.field), names.1,
             if args.owningSetters then Owning else InPlace)
  }

  /** `generate_getters_setters`: one pair per packed field, in field order. */
  method GenerateGettersSetters(args: Args, boolFields: seq<BoolField>) returns (implBody: seq<Accessor>)
    ensures |implBody| == |boolFields|
    ensures forall i :: 0 <= i < |boolFields| ==> implBody[i] == AccessorFor(args, boolFields[i])
  {
    implBody := [];
    var i := 0;
    while i < |boolFields|
      invariant 0 <= i <= |boolFields|
      invariant |implBody| == i
      invariant forall k :: 0 <= k < i ==> implBody[k] == AccessorFor(args, boolFields[k])
    {
      implBody := implBody + [AccessorFor(args, boolFields[i])];
      i := i + 1;
    }
  }

  /** The body of a getter: the value flag of a bool; for an `Option<bool>`, `None` unless
      the presence flag is on, and then the value flag. */
  function GetterValue(bf: BoolField, flags: FlagSet): (r: Value)
    ensures Typed(bf, r)
    ensures (r == BoolV(true) || r == OptBoolV(Some(true)))
      <==> bf.flagBit in flags && (bf.tagBit.Some? ==> bf.tagBit.value in flags)
  {
    match bf.tagBit
    case None => BoolV(Contains(flags, bf.flagBit))
    case Some(tag) => OptBoolV(if Contains(flags, tag) then Some(Contains(flags, bf.flagBit)) else None)
  }

  /** A value the accessors of `bf` can take: a bool, or an optional bool when it has a tag. */
  predicate Typed(bf: BoolField, v: Value)
  {
    if bf.tagBit.None? then v.BoolV? else v.OptBoolV?
  }

  /** The body of a setter: `flags.set(flag, v)`; for an `Option<bool>`, `Some(b)` also turns
      the presence flag on and `None` turns it off, leaving the value flag as it was. */
  function SetterFlags(bf: BoolField, flags: FlagSet, v: Value): (r: FlagSet)
    requires Typed(bf, v)
    ensures forall b :: b !in BitsOf(bf) ==> (b in r <==> b in flags)
  {
    match v
    case BoolV(b) => Set(flags, bf.flagBit, b)
    case OptBoolV(o) =>
      match o
      case None => Remove(flags, bf.tagBit.value)
      case Some(b) => Set(Insert(flags, bf.tagBit.value), bf.flagBit, b)
  }

  /** A getter only looks at its own field's bits. */
  lemma GetterValueLocal(bf: BoolField, f1: FlagSet, f2: FlagSet)
    requires forall b :: b in BitsOf(bf) ==> (b in f1 <==> b in f2)
    ensures GetterValue(bf, f1) == GetterValue(bf, f2)
  {
    assert bf.flagBit in BitsOf(bf);
    if bf.tagBit.Some? {
      assert bf.tagBit.value in BitsOf(bf);
    }
  }

  /** The getter returns what the setter stored, for bools and for all three optional states. */
  lemma GetAfterSet(bf: BoolField, flags: FlagSet, v: Value)
    requires Typed(bf, v)
    requires bf.tagBit != Some(bf.flagBit)
    ensures GetterValue(bf, SetterFlags(bf, flags, v)) == v
  {
  }

  /** A setter leaves every field whose bits it does not share unchanged. */
  lemma SetLeavesOthers(bf: BoolField, other: BoolField, flags: FlagSet, v: Value)
    requires Typed(bf, v)
    requires BitsOf(bf) !! BitsOf(other)
    ensures GetterValue(other, SetterFlags(bf, flags, v)) == GetterValue(other, flags)
  {
    var after := SetterFlags(bf, flags, v);
    forall b | b in BitsOf(other)
      ensures b in after <==> b in flags
    {
      assert b !in BitsOf(bf);
    }
    GetterValueLocal(other, after, flags);
  }

  /** On the default (empty) flag set every bool reads `false` and every optional `None`. */
  lemma DefaultReadsFalseOrNone(bf: BoolField)
    ensures GetterValue(bf, Empty) == if bf.tagBit.None? then BoolV(false) else OptBoolV(None)
  {
  }

  /** The compacted struct at run time: its pass-through fields and `__generated_flags`, with
      the in-place (`&mut self`) accessors. */
  class CompactedRecord {
    var others: Record
    var flags: FlagSet

    /** `Default::default()`: the flags start empty. */
    constructor (others: Record)
      ensures this.others == others && flags == Empty
    {
      this.others := others;
      flags := Empty;
    }

    function Get(bf: BoolField): Value
      reads this
    {
      GetterValue(bf, flags)
    }

    method SetBool(bf: BoolField, value: bool)
      requires bf.tagBit.None?
      modifies this
      ensures flags == SetterFlags(bf, old(flags), BoolV(value)) && others == old(others)
      ensures Get(bf) == BoolV(value)
      ensures forall other :: BitsOf(other) !! BitsOf(bf) ==> Get(other) == old(Get(other))
    {
      flags := Set(flags, bf.flagBit, value);
      forall other | BitsOf(other) !! BitsOf(bf)
        ensures Get(other) == old(Get(other))
      {
        SetLeavesOthers(bf, other, old(flags), BoolV(value));
      }
    }

    method SetOptBool(bf: BoolField, value: Option<bool>)
      requires bf.tagBit.Some? && bf.tagBit.value != bf.flagBit
      modifies this
      ensures flags == SetterFlags(bf, old(flags), OptBoolV(value)) && others == old(others)
      ensures Get(bf) == OptBoolV(value)
      ensures forall other :: BitsOf(other) !! BitsOf(bf) ==> Get(other) == old(Get(other))
    {
      match value {
        case None =>
          flags := Remove(flags, bf.tagBit.value);
        case Some(b) =>
          flags := Insert(flags, bf.tagBit.value);
          flags := Set(flags, bf.flagBit, b);
      }
      GetAfterSet(bf, old(flags), OptBoolV(value));
      forall other | BitsOf(other) !! BitsOf(bf)
        ensures Get(other) == old(Get(other))
      {
        SetLeavesOthers(bf, other, old(flags), OptBoolV(value));
      }
    }
  }

  /** An owning setter (`owning_setters`): takes the value and returns it with the flag stored;
      the field then reads back the stored value and every field with other bits reads as
      before. */
  function WithValue(c: CompactedValue, bf: BoolField, v: Value): (r: CompactedValue)
    requires Typed(bf, v)
    ensures r.others == c.others && r.flags == SetterFlags(bf, c.flags, v)
    ensures bf.tagBit != Some(bf.flagBit) ==> GetterValue(bf, r.flags) == v
    ensures forall other :: BitsOf(other) !! BitsOf(bf) ==>
      GetterValue(other, r.flags) == GetterValue(other, c.flags)
  {
    var r := c.(flags := SetterFlags(bf, c.flags, v));
    assert bf.tagBit != Some(bf.flagBit) ==> GetterValue(bf, r.flags) == v by {
      if bf.tagBit != Some(bf.flagBit) {
        GetAfterSet(bf, c.flags, v);
      }
    }
    assert forall other :: BitsOf(other) !! BitsOf(bf) ==>
      GetterValue(other, r.flags) == GetterValue(other, c.flags) by {
      forall other | BitsOf(other) !! BitsOf(bf)
        ensures GetterValue(other, r.flags) == GetterValue(other, c.flags)
      {
        SetLeavesOthers(bf, other, c.flags, v);
      }
    }
    r
  }
}
