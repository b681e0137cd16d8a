/** The attribute's expansion (src/impl.rs, `bool_to_bitflags_impl`): the flat twin, the
    conversions, the flags type, the serde directives, the compacted struct and its accessors. */
module Expand {
  import opened Wrappers
  import opened Ast
  import opened Seqs
  import opened Classify
  import opened Layout
  import opened Values
  import opened GetSet
  import opened FromInto
  import opened DeriveHijack

  const FlagFieldName: Ident := "__generated_flags"

  /** `#[allow(clippy::struct_excessive_bools)]`, put in front of the flat twin. */
  const AllowExcessiveBools: Attr := OtherAttr(["allow"], "clippy::struct_excessive_bools")

  function FlagsName(structName: Ident): Ident
  {
    structName + "Flags"
  }

  function OriginalName(structName: Ident): Ident
  {
    structName + "Original"
  }

  /** `generate_flag_field`: `pub(crate) __generated_flags: <Name>Flags`, without attributes. */
  function FlagField(flagsName: Ident): (r: Field)
    ensures r.ident == FlagFieldName && r.attrs == [] && r.vis == Restricted(["crate"])
    ensures r.ty == PathTy([Segment(flagsName, [])])
    ensures IsPassThrough(r) <==> flagsName != "bool"
  {
    Field([], Restricted(["crate"]), FlagFieldName, PathTy([Segment(flagsName, [])]))
  }

  /** The packed fields of a struct, in declaration order. */
  function PackedFields(item: Struct): seq<Field>
    requires item.fields.Named?
  {
    Filter(item.fields.named, IsPackable)
  }

  /** The compacted struct: the same attributes, visibility and name, its pass-through fields
      in order and then the flag field. */
  function Compacted(item: Struct): (r: Struct)
    requires item.fields.Named?
    ensures r.attrs == item.attrs && r.vis == item.vis && r.ident == item.ident && r.fields.Named?
    ensures |r.fields.named| == |item.fields.named| - |PackedFields(item)| + 1
    ensures r.fields.named[|r.fields.named| - 1] == FlagField(FlagsName(item.ident))
    ensures forall i :: 0 <= i < |r.fields.named| - 1 ==>
      r.fields.named[i] in item.fields.named && IsPassThrough(r.fields.named[i])
  {
    ClassificationPartition(item.fields.named);
    item.(fields := Named(Filter(item.fields.named, IsPassThrough) + [FlagField(FlagsName(item.ident))]))
  }

  /** The flat twin: the struct as written under the `Original` name. */
  function Original(item: Struct): (r: Struct)
    ensures r.fields == item.fields && r.vis == item.vis
    ensures r.attrs == [AllowExcessiveBools] + item.attrs
    ensures r.ident == item.ident + "Original" && r.ident != item.ident
  {
    item.(ident := OriginalName(item.ident), attrs := [AllowExcessiveBools] + item.attrs)
  }

  /** The flat twin keeps every field of the input, the compacted struct keeps the
      pass-through ones followed by the flag field, and the packed ones are exactly those
      the compacted struct lost; the twin's name differs from the struct's. */
  lemma TwinsPartitionFields(item: Struct)
    requires item.fields.Named?
    ensures Original(item).fields == item.fields && Original(item).ident != item.ident
    ensures var kept := Compacted(item).fields.named;
      && |kept| > 0 && kept[|kept| - 1] == FlagField(FlagsName(item.ident))
      && multiset(PackedFields(item)) + multiset(kept[..|kept| - 1]) == multiset(item.fields.named)
  {
    assert |OriginalName(item.ident)| > |item.ident|;
    var kept := Compacted(item).fields.named;
    assert kept[..|kept| - 1] == Filter(item.fields.named, IsPassThrough);
    ClassificationPartition(item.fields.named);
  }

  datatype Output = Output(
    original: Struct,
    fromImpl: Conversion,
    intoImpl: Conversion,
    flagsType: FlagsType,
    serdeDirectives: seq<Attr>,
    compacted: Struct,
    accessors: seq<Accessor>)

  /** `bool_to_bitflags_impl`, after argument parsing. */
  method BoolToBitflagsImpl(args: Args, item: Struct) returns (r: Result<Output, Failure>)
    ensures !item.fields.Named? ==> r == Err(Custom(NamedOnlyMessage))
    ensures item.fields.Named? ==> (r.Err? <==> BitDemand(PackedFields(item)) > 128)
    ensures item.fields.Named? && r.Err? ==> r.error == FlagOverflowPanic(BitDemand(PackedFields(item)))
    ensures r.Ok? ==> item.fields.Named? && r.value.original == Original(item) && r.value.compacted == Compacted(item)
    ensures r.Ok? && item.fields.Named? ==>
              var bfs := AssignBits(PackedFields(item));
              && r.value.fromImpl == ImplFrom(Compacted(item), OriginalName(item.ident), FlagFieldName, FlagsName(item.ident), bfs)
              && r.value.intoImpl == ImplInto(Compacted(item), OriginalName(item.ident), FlagFieldName, FlagsName(item.ident), bfs)
              && |r.value.accessors| == |bfs|
              && (forall i :: 0 <= i < |bfs| ==> r.value.accessors[i] == AccessorFor(args, bfs[i]))
    ensures r.Ok? && item.fields.Named? ==>
              var demand := BitDemand(PackedFields(item));
              && r.value.flagsType.ident == FlagsName(item.ident)
              && Ok(r.value.flagsType.width) == GetFlagSize(demand)
              && r.value.flagsType.values == FlagValues(demand)
              && r.value.flagsType.attrs == RewriteAttrs(item.attrs)
              && r.value.serdeDirectives == Directives(item.attrs, OriginalName(item.ident))
  {
    var flagsName := FlagsName(item.ident);
    var original := Original(item);
    var flagField := FlagField(flagsName);
    var extracted := ExtractBoolFields(flagField, item.fields);
    if extracted.Err? {
      return Err(extracted.error);
    }
    var compacted := item.(fields := extracted.value.0);
    var boolFields := AssignBits(extracted.value.1);
    var hijack := HijackDerives(compacted, FlagFieldName, original.ident, flagsName, boolFields);
    var fromImpl := ImplFrom(compacted, original.ident, FlagFieldName, flagsName, boolFields);
    var intoImpl := ImplInto(compacted, original.ident, FlagFieldName, flagsName, boolFields);
    var flagsType := GenerateBitflagsType(flagsName, extracted.value.1, hijack.flagsDerives);
    if flagsType.Err? {
      return Err(flagsType.error);
    }
    var accessors := GenerateGettersSetters(args, boolFields);
    return Ok(Output(original, fromImpl, intoImpl, flagsType.value, hijack.compactedStructAttrs, compacted, accessors));
  }

  /** A legal value of the flat struct under the cfg conditions `active`: exactly the fields
      compiled in, each packed one holding a value of its kind. Field names compiled in
      together are distinct, and no pass-through field is called `__generated_flags` (the
      compacted struct would not compile otherwise). */
  ghost predicate FlatValue(fs: seq<Field>, active: set<string>, v: Record)
  {
    && v.Keys == (set f | f in fs && Enabled(f.attrs, active) :: f.ident)
    && (forall i, j :: 0 <= i < j < |fs| && Enabled(fs[i].attrs, active) && Enabled(fs[j].attrs, active)
          ==> fs[i].ident != fs[j].ident)
    && (forall f :: f in fs && IsPassThrough(f) ==> f.ident != FlagFieldName)
    && (forall f :: f in fs && Enabled(f.attrs, active) && IsPackable(f) ==>
          f.ident in v && (if IsOptionalBool(f) then v[f.ident].OptBoolV? else v[f.ident].BoolV?))
  }

  lemma EnabledBoolIdentsOf(pk: seq<Field>, active: set<string>)
    ensures EnabledBoolIdents(AssignBits(pk), active) == set f | f in pk && Enabled(f.attrs, active) :: f.ident
  {
    var bfs := AssignBits(pk);
    forall f | f in pk && Enabled(f.attrs, active)
      ensures f.ident in EnabledBoolIdents(bfs, active)
    {
      var i :| 0 <= i < |pk| && pk[i] == f;
      assert bfs[i] in bfs;
    }
  }

  lemma EnabledPassIdentsOf(pt: seq<Field>, active: set<string>)
    ensures EnabledPassIdents(ToPassFields(pt), active) == set f | f in pt && Enabled(f.attrs, active) :: f.ident
  {
    var pfs := ToPassFields(pt);
    forall p | p in pfs && Enabled(p.cfgs, active)
      ensures exists f :: f in pt && Enabled(f.attrs, active) && f.ident == p.ident
    {
      var i :| 0 <= i < |pfs| && pfs[i] == p;
      assert pt[i] in pt;
    }
    forall f | f in pt && Enabled(f.attrs, active)
      ensures f.ident in EnabledPassIdents(pfs, active)
    {
      var i :| 0 <= i < |pt| && pt[i] == f;
      assert pfs[i] in pfs;
    }
  }

  /** The keys of a legal flat value are the names of its packed and pass-through fields
      compiled in. */
  lemma FlatKeysSplit(fs: seq<Field>, active: set<string>, v: Record)
    requires FlatValue(fs, active, v)
    ensures v.Keys == EnabledBoolIdents(AssignBits(Filter(fs, IsPackable)), active)
                    + EnabledPassIdents(ToPassFields(Filter(fs, IsPassThrough)), active)
  {
    var pk := Filter(fs, IsPackable);
    var pt := Filter(fs, IsPassThrough);
    EnabledBoolIdentsOf(pk, active);
    EnabledPassIdentsOf(pt, active);
    forall n | n in v.Keys
      ensures (exists f :: f in pk && Enabled(f.attrs, active) && f.ident == n)
           || (exists f :: f in pt && Enabled(f.attrs, active) && f.ident == n)
    {
      var f :| f in fs && Enabled(f.attrs, active) && f.ident == n;
      if IsPackable(f) {
        assert f in pk;
      } else {
        assert f in pt;
      }
    }
  }

  /** No name is both a packed and a pass-through field compiled in. */
  lemma FlatNamesDisjoint(fs: seq<Field>, active: set<string>, v: Record)
    requires FlatValue(fs, active, v)
    ensures EnabledBoolIdents(AssignBits(Filter(fs, IsPackable)), active)
         !! EnabledPassIdents(ToPassFields(Filter(fs, IsPassThrough)), active)
  {
    var pk := Filter(fs, IsPackable);
    var pt := Filter(fs, IsPassThrough);
    EnabledBoolIdentsOf(pk, active);
    EnabledPassIdentsOf(pt, active);
    forall f, g | f in pk && Enabled(f.attrs, active) && g in pt && Enabled(g.attrs, active)
      ensures f.ident != g.ident
    {
      var i :| 0 <= i < |fs| && fs[i] == f;
      var j :| 0 <= j < |fs| && fs[j] == g;
      assert i != j;
      if i < j {
        assert fs[i].ident != fs[j].ident;
      } else {
        assert fs[j].ident != fs[i].ident;
      }
    }
  }

  /** Every packed field compiled in holds a value of its kind. */
  lemma FlatValueTyped(fs: seq<Field>, active: set<string>, v: Record)
    requires FlatValue(fs, active, v)
    ensures FlatTyped(AssignBits(Filter(fs, IsPackable)), active, v)
  {
    var pk := Filter(fs, IsPackable);
    var bfs := AssignBits(pk);
    forall bf | bf in bfs && Enabled(bf.field.attrs, active)
      ensures bf.field.ident in v && Typed(bf, v[bf.field.ident])
    {
      var i :| 0 <= i < |bfs| && bfs[i] == bf;
      assert pk[i] in pk;
    }
  }

  /** The conversions emitted for a struct see every legal flat value as fitting, and the
      bits they use are distinct. */
  lemma ExpansionFits(item: Struct, active: set<string>, v: Record)
    requires item.fields.Named?
    requires FlatValue(item.fields.named, active, v)
    ensures var c := ImplFrom(Compacted(item), OriginalName(item.ident), FlagFieldName, FlagsName(item.ident),
                              AssignBits(PackedFields(item)));
      DistinctBits(c.boolFields) && FlatFits(c, active, v)
  {
    var fs := item.fields.named;
    PassthroughOfCompacted(Filter(fs, IsPassThrough), FlagField(FlagsName(item.ident)));
    AssignBitsWellLaidOut(Filter(fs, IsPackable));
    FlatKeysSplit(fs, active, v);
    FlatNamesDisjoint(fs, active, v);
    FlatValueTyped(fs, active, v);
  }

  /** End to end: for every struct the attribute accepts, converting a legal value of the flat
      twin into the compacted struct with the emitted `From` and back with the emitted `Into`
      gives the value back unchanged. */
  lemma ExpansionRoundTrip(item: Struct, active: set<string>, v: Record)
    requires item.fields.Named?
    requires FlatValue(item.fields.named, active, v)
    ensures var bfs := AssignBits(PackedFields(item));
      var from := ImplFrom(Compacted(item), OriginalName(item.ident), FlagFieldName, FlagsName(item.ident), bfs);
      var into := ImplInto(Compacted(item), OriginalName(item.ident), FlagFieldName, FlagsName(item.ident), bfs);
      && FlatFits(from, active, v)
      && RunInto(into, active, RunFrom(from, active, v)) == v
  {
    var bfs := AssignBits(PackedFields(item));
    var from := ImplFrom(Compacted(item), OriginalName(item.ident), FlagFieldName, FlagsName(item.ident), bfs);
    ExpansionFits(item, active, v);
    RoundTrip(from, active, v);
  }
}
