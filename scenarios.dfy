/** The repository's own test structs (the files under tests/), restated as lemmas about the model. */
module Scenarios {
  import opened Wrappers
  import opened Ast
  import opened Seqs
  import opened Bitflags
  import opened Classify
  import opened Layout
  import opened Values
  import opened GetSet
  import opened FromInto
  import opened DeriveHijack
  import opened Expand

  const BoolTy: Ty := PathTy([Segment("bool", [])])
  const U8Ty: Ty := PathTy([Segment("u8", [])])
  const OptionBoolTy: Ty := PathTy([Segment("Option", [BoolTy])])

  function Plain(name: Ident, ty: Ty): Field
  {
    Field([], Inherited, name, ty)
  }

  /** tests/basic.rs `Human { age: u8, is_epic: bool, is_cool: bool }`: whatever the names,
      the two bools are packed and `age` stays a field. */
  lemma {:induction false} HumanClassify(age: Field, isEpic: Field, isCool: Field)
    requires IsPassThrough(age) && isEpic.ty == BoolTy && isCool.ty == BoolTy
    ensures Filter([age, isEpic, isCool], IsPassThrough) == [age]
    ensures Filter([age, isEpic, isCool], IsPackable) == [isEpic, isCool]
  {
    var fs := [age, isEpic, isCool];
    assert IsPackable(fs[1]) && IsPackable(fs[2]);
    FilterSuffix(fs, 1, IsPackable);
    FilterPrefix(fs, 1, IsPassThrough);
    assert fs[1..] == [isEpic, isCool];
  }

  /** The two bools of `Human` fit one byte, on bits 0 and 1. */
  lemma {:induction false} HumanBits(isEpic: Field, isCool: Field)
    requires isEpic.ty == BoolTy && isCool.ty == BoolTy
    ensures GetFlagSize(BitDemand([isEpic, isCool])) == Ok(U8)
    ensures AssignBits([isEpic, isCool]) == [BoolField(isEpic, 0, None), BoolField(isCool, 1, None)]
  {
    var pk := [isEpic, isCool];
    assert !IsOptionalBool(pk[0]) && !IsOptionalBool(pk[1]);
    FilterKeepsNone(pk, IsOptionalBool);
    var bs := AssignBits(pk);
    assert bs[0] == BoolField(isEpic, 0, None);
    assert bs[1] == BoolField(isCool, 1, None);
  }

  /** tests/basic.rs `setters`: a default `Human` reads `is_cool() == false`; after
      `set_is_cool(true)` it reads `true`, and `is_epic` is untouched. */
  method HumanSetters(age: Field, isEpic: Field, isCool: Field) returns (before: Value, after: Value, epic: Value)
    requires IsPassThrough(age) && isEpic.ty == BoolTy && isCool.ty == BoolTy
    ensures before == BoolV(false) && after == BoolV(true) && epic == BoolV(false)
  {
    HumanClassify(age, isEpic, isCool);
    HumanBits(isEpic, isCool);
    var bfs := AssignBits(Filter([age, isEpic, isCool], IsPackable));
    var example := new CompactedRecord(map[age.ident := Opaque("0")]);
    before := example.Get(bfs[1]);
    example.SetBool(bfs[1], true);
    after := example.Get(bfs[1]);
    epic := example.Get(bfs[0]);
  }

  /** tests/many.rs `ManyBools`: seventeen bools are all packed, need a `u32`, and field i
      gets bit i without a presence bit. */
  lemma {:induction false} ManyLayout(fs: seq<Field>)
    requires |fs| == 17 && forall i :: 0 <= i < |fs| ==> fs[i].ty == BoolTy
    ensures Filter(fs, IsPackable) == fs
    ensures GetFlagSize(BitDemand(fs)) == Ok(U32)
    ensures forall i :: 0 <= i < 17 ==> AssignBits(fs)[i] == BoolField(fs[i], i, None)
  {
    FilterKeepsAll(fs, IsPackable);
    FilterKeepsNone(fs, IsOptionalBool);
  }

  /** tests/many.rs `test`: with owning setters, `set_bool_1(true)`, `set_bool_9(true)` and
      `set_bool_17(true)` read back `true`, and `bool_16` stays `false`. */
  lemma {:induction false} ManyOwningSetters(fs: seq<Field>)
    requires |fs| == 17 && forall i :: 0 <= i < |fs| ==> fs[i].ty == BoolTy
    ensures var bfs := AssignBits(fs);
      var v := WithValue(WithValue(WithValue(CompactedValue(map[], Empty),
                 bfs[0], BoolV(true)), bfs[8], BoolV(true)), bfs[16], BoolV(true));
      && GetterValue(bfs[0], v.flags) == BoolV(true)
      && GetterValue(bfs[8], v.flags) == BoolV(true)
      && GetterValue(bfs[16], v.flags) == BoolV(true)
      && GetterValue(bfs[15], v.flags) == BoolV(false)
  {
    ManyLayout(fs);
    var bfs := AssignBits(fs);
    assert bfs[0].flagBit == 0 && bfs[8].flagBit == 8 && bfs[16].flagBit == 16 && bfs[15].flagBit == 15;
    var v1 := WithValue(CompactedValue(map[], Empty), bfs[0], BoolV(true));
    var v2 := WithValue(v1, bfs[8], BoolV(true));
    var v3 := WithValue(v2, bfs[16], BoolV(true));
    assert v3.flags == {0, 8, 16};
  }

  /** tests/opt_bool.rs `{ opt_bool: Option<bool>, normal: bool }`: both fields are packed. */
  lemma {:induction false} OptionalBoolClassify(optBool: Field, normal: Field)
    requires optBool.ty == OptionBoolTy && normal.ty == BoolTy
    ensures Filter([optBool, normal], IsPackable) == [optBool, normal]
  {
    var fs := [optBool, normal];
    assert IsPackable(fs[0]) && IsPackable(fs[1]);
    FilterKeepsAll(fs, IsPackable);
  }

  /** Value bits 0 and 1, presence bit 2: three bits, still one byte. */
  lemma {:induction false} OptionalBoolBits(optBool: Field, normal: Field)
    requires optBool.ty == OptionBoolTy && normal.ty == BoolTy
    ensures AssignBits([optBool, normal]) == [BoolField(optBool, 0, Some(2)), BoolField(normal, 1, None)]
    ensures GetFlagSize(BitDemand([optBool, normal])) == Ok(U8)
  {
    var pk := [optBool, normal];
    assert IsOptionalBool(pk[0]) && !IsOptionalBool(pk[1]);
    FilterPrefix(pk, 1, IsOptionalBool);
    assert CountOptional(pk) == 1;
    assert CountOptional(pk[..0]) == 0;
    var bs := AssignBits(pk);
    assert bs[0] == BoolField(optBool, 0, Some(2));
    assert bs[1] == BoolField(normal, 1, None);
  }

  /** tests/opt_bool.rs `test`: `None` by default, then `Some(false)`, then `Some(true)`;
      `normal` stays `false` throughout. */
  method OptionalBoolSetters(optBool: Field, normal: Field)
    returns (initial: Value, afterFalse: Value, afterTrue: Value, normalValue: Value)
    requires optBool.ty == OptionBoolTy && normal.ty == BoolTy
    ensures initial == OptBoolV(None)
    ensures afterFalse == OptBoolV(Some(false)) && afterTrue == OptBoolV(Some(true))
    ensures normalValue == BoolV(false)
  {
    OptionalBoolClassify(optBool, normal);
    OptionalBoolBits(optBool, normal);
    var bfs := AssignBits(Filter([optBool, normal], IsPackable));
    var example := new CompactedRecord(map[]);
    initial := example.Get(bfs[0]);
    example.SetOptBool(bfs[0], Some(false));
    afterFalse := example.Get(bfs[0]);
    example.SetOptBool(bfs[0], Some(true));
    afterTrue := example.Get(bfs[0]);
    normalValue := example.Get(bfs[1]);
  }

  const SerdeTestDerives: seq<SynPath> :=
    [["Debug"], ["PartialEq"], ["Clone"], ["serde", "Deserialize"], ["serde", "Serialize"]]

  /** tests/serde.rs `Test`: both serde derives are hijacked, so the compacted struct gets one
      `from` and one `into` directive. */
  lemma {:induction false} SerdeBothDirections(path: string)
    ensures Directives([DeriveAttr(SerdeTestDerives)], path) == [SerdeFrom(path), SerdeInto(path)]
  {
    var paths := SerdeTestDerives;
    var attrs := [DeriveAttr(paths)];
    assert attrs[..0] == [];
    RequestedSpec(paths);
    assert IsSerdeDeserialize(paths[3]) && IsSerdeSerialize(paths[4]);
    assert Requested(paths) == {SERDE_DE, SERDE_SER};
  }

  /** tests/serde.rs `Test`: the flags type keeps the other derives, in order. */
  lemma SerdeTestFlagsDerives()
    ensures RewriteAttrs([DeriveAttr(SerdeTestDerives)]) == [DeriveAttr(SerdeTestDerives[..3])]
  {
    FilterPrefix(SerdeTestDerives, 3, KeepDerive);
  }

  /** tests/serde.rs `TestRemote`: only `Deserialize` is derived, so only the `from`
      directive is emitted; `#[serde(remote = "Self")]` is forwarded to the flags type too. */
  lemma {:induction false} SerdeDeserializeOnly(path: string)
    ensures var attrs := [DeriveAttr([["serde", "Deserialize"]]), OtherAttr(["serde"], "remote = \"Self\"")];
      && Directives(attrs, path) == [SerdeFrom(path)]
      && RewriteAttrs(attrs) == [DeriveAttr([]), OtherAttr(["serde"], "remote = \"Self\"")]
  {
    var attrs := [DeriveAttr([["serde", "Deserialize"]]), OtherAttr(["serde"], "remote = \"Self\"")];
    assert attrs[..1][..0] == [];
    assert attrs[..|attrs| - 1] == attrs[..1];
    assert Requested([["serde", "Deserialize"]]) == {SERDE_DE};
    assert RequestedAll(attrs[..1]) == {SERDE_DE};
  }

  /** tests/guarded_flag.rs `Test`: a disabled pass-through field, an enabled one, a disabled
      flag and an enabled flag, in that order; `off` is a cfg condition that does not hold. */
  function Guarded(off: string, disabledField: Ident, enabledField: Ident, disabledFlag: Ident, enabledFlag: Ident)
    : seq<Field>
  {
    [Field([CfgAttr(off)], Inherited, disabledField, U8Ty),
     Plain(enabledField, U8Ty),
     Field([CfgAttr(off)], Inherited, disabledFlag, BoolTy),
     Plain(enabledFlag, BoolTy)]
  }

  /** The two `u8` fields are passed through and the two bools packed, whatever the cfgs. */
  lemma {:induction false} GuardedClassify(off: string, df: Ident, ef: Ident, dg: Ident, eg: Ident)
    ensures var fs := Guarded(off, df, ef, dg, eg);
      && Filter(fs, IsPackable) == fs[2..]
      && Filter(fs, IsPassThrough) == fs[..2]
  {
    var fs := Guarded(off, df, ef, dg, eg);
    assert KindOf(fs[0]) == PassThrough && KindOf(fs[1]) == PassThrough;
    assert KindOf(fs[2]) == PlainBool && KindOf(fs[3]) == PlainBool;
    FilterSuffix(fs, 2, IsPackable);
    FilterPrefix(fs, 2, IsPassThrough);
  }

  /** The disabled flag still owns bit 0; the enabled one gets bit 1. */
  lemma {:induction false} GuardedLayout(off: string, df: Ident, ef: Ident, dg: Ident, eg: Ident)
    ensures var fs := Guarded(off, df, ef, dg, eg);
      AssignBits(fs[2..]) == [BoolField(fs[2], 0, None), BoolField(fs[3], 1, None)]
  {
    var fs := Guarded(off, df, ef, dg, eg);
    var pk := fs[2..];
    assert KindOf(pk[0]) == PlainBool && KindOf(pk[1]) == PlainBool;
    FilterKeepsNone(pk, IsOptionalBool);
    var bs := AssignBits(pk);
    assert bs[0] == BoolField(fs[2], 0, None);
    assert bs[1] == BoolField(fs[3], 1, None);
  }

  /** Both pass-through fields stay in the conversions, each with its own cfg. */
  lemma {:induction false} GuardedPassthrough(off: string, df: Ident, ef: Ident, dg: Ident, eg: Ident, flags: Ident)
    requires df != FlagFieldName && ef != FlagFieldName
    ensures var fs := Guarded(off, df, ef, dg, eg);
      ExtractPassthroughFields(fs[..2] + [FlagField(flags)], FlagFieldName)
        == [PassField(df, [CfgAttr(off)]), PassField(ef, [])]
  {
    var fs := Guarded(off, df, ef, dg, eg);
    PassthroughOfCompacted(fs[..2], FlagField(flags));
    var cfgs := [CfgAttr(off)];
    assert Filter(cfgs, (a: Attr) => a.CfgAttr?) == cfgs + Filter(cfgs[1..], (a: Attr) => a.CfgAttr?);
    assert ToPassFields(fs[..2])[0] == PassField(df, cfgs);
    assert ToPassFields(fs[..2])[1] == PassField(ef, []);
  }

  /** The `into` impl emitted for tests/guarded_flag.rs. */
  lemma {:induction false} GuardedConversion(off: string, df: Ident, ef: Ident, dg: Ident, eg: Ident)
    requires df != FlagFieldName && ef != FlagFieldName
    ensures var fs := Guarded(off, df, ef, dg, eg);
      ImplInto(Compacted(Struct([], Inherited, "Test", Named(fs))), OriginalName("Test"),
               FlagFieldName, FlagsName("Test"), AssignBits(Filter(fs, IsPackable)))
        == Conversion(IntoFlat, "Test", OriginalName("Test"), FlagFieldName, FlagsName("Test"),
                      [PassField(df, [CfgAttr(off)]), PassField(ef, [])],
                      [BoolField(fs[2], 0, None), BoolField(fs[3], 1, None)])
  {
    GuardedClassify(off, df, ef, dg, eg);
    GuardedLayout(off, df, ef, dg, eg);
    GuardedPassthrough(off, df, ef, dg, eg, FlagsName("Test"));
  }

  /** Under `active` without `off`, `into` copies only the enabled field. */
  lemma {:induction false} GuardedCopy(off: string, df: Ident, ef: Ident, active: set<string>, x: Value)
    requires off !in active
    ensures CopyFields([PassField(df, [CfgAttr(off)]), PassField(ef, [])], active, map[ef := x]) == map[ef := x]
  {
    var pfs := [PassField(df, [CfgAttr(off)]), PassField(ef, [])];
    assert CfgAttr(off) in pfs[0].cfgs;
    assert pfs[1] in pfs;
    var copied := CopyFields(pfs, active, map[ef := x]);
    assert copied.Keys == {ef};
  }

  /** Under `active` without `off`, `into` reads back only the enabled flag. */
  lemma {:induction false} GuardedBoolPart(off: string, df: Ident, ef: Ident, dg: Ident, eg: Ident,
                                           active: set<string>)
    requires off !in active
    ensures var fs := Guarded(off, df, ef, dg, eg);
      BoolPart([BoolField(fs[2], 0, None), BoolField(fs[3], 1, None)], active, {1}) == map[eg := BoolV(true)]
  {
    var fs := Guarded(off, df, ef, dg, eg);
    var bfs := [BoolField(fs[2], 0, None), BoolField(fs[3], 1, None)];
    assert CfgAttr(off) in bfs[0].field.attrs;
    assert bfs[1..][1..] == [];
    assert BoolPart(bfs[1..], active, {1}) == map[eg := BoolV(true)];
  }

  lemma MapOfTwo(a: Ident, b: Ident, x: Value, y: Value)
    requires a != b
    ensures map[b := y] + map[a := x] == map[a := x, b := y]
  {
    var m := map[b := y] + map[a := x];
    assert m.Keys == {a, b};
  }

  /** tests/guarded_flag.rs `test`: with `off` not holding, building the compacted struct
      with `enabled_field: 1`, setting `enabled_flag` and converting with the `into` impl
      (GuardedConversion) gives the flat `{ enabled_field: 1, enabled_flag: true }`. */
  lemma {:induction false} GuardedFlagInto(off: string, df: Ident, ef: Ident, dg: Ident, eg: Ident, active: set<string>)
    requires ef != eg && off !in active
    ensures var fs := Guarded(off, df, ef, dg, eg);
      var into := Conversion(IntoFlat, "Test", OriginalName("Test"), FlagFieldName, FlagsName("Test"),
                             [PassField(df, [CfgAttr(off)]), PassField(ef, [])],
                             [BoolField(fs[2], 0, None), BoolField(fs[3], 1, None)]);
      RunInto(into, active, WithValue(CompactedValue(map[ef := Opaque("1")], Empty), into.boolFields[1], BoolV(true)))
        == map[ef := Opaque("1"), eg := BoolV(true)]
  {
    GuardedCopy(off, df, ef, active, Opaque("1"));
    GuardedBoolPart(off, df, ef, dg, eg, active);
    MapOfTwo(ef, eg, Opaque("1"), BoolV(true));
    var fs := Guarded(off, df, ef, dg, eg);
    assert SetterFlags(BoolField(fs[3], 1, None), Empty, BoolV(true)) == {1};
  }
}
