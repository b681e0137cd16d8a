/** The `From`/`Into` conversions between the original (flat) struct and the compacted one
    (src/impl_from_into.rs): what is emitted, and what the emitted bodies compute. */
module FromInto {
  import opened Wrappers
  import opened Ast
  import opened Seqs
  import opened Bitflags
  import opened Classify
  import opened Values
  import opened GetSet

  /** A pass-through field as the conversions see it: its name and its `#[cfg]` attributes. */
  datatype PassField = PassField(ident: Ident, cfgs: seq<Attr>)

  function ToPassFields(fs: seq<Field>): (r: seq<PassField>)
    ensures |r| == |fs|
  {
    seq(|fs|, i requires 0 <= i < |fs| => PassField(fs[i].ident, ExtractCfgs(fs[i].attrs)))
  }

  /** `extract_passthrough_fields`: the compacted struct's fields other than the flag field, in
      order, each with its own `#[cfg]` attributes. */
  function ExtractPassthroughFields(fields: seq<Field>, flagFieldName: Ident): (r: seq<PassField>)
    ensures |r| <= |fields|
    ensures forall p :: p in r ==> p.ident != flagFieldName
  {
    ToPassFields(Filter(fields, (f: Field) => f.ident != flagFieldName))
  }

  /** On a compacted field list, the pass-through fields are exactly the original struct's
      pass-through fields, in order, with their cfgs. */
  lemma PassthroughOfCompacted(fs: seq<Field>, flagField: Field)
    requires forall f :: f in fs ==> f.ident != flagField.ident
    ensures ExtractPassthroughFields(fs + [flagField], flagField.ident) == ToPassFields(fs)
  {
    var p := (f: Field) => f.ident != flagField.ident;
    FilterConcat(fs, [flagField], p);
    FilterKeepsAll(fs, p);
    assert Filter([flagField], p) == [];
  }

  datatype Direction = FromFlat | IntoFlat

  /** An emitted conversion impl: between `structName` (compacted) and `originalName` (flat),
      copying `passthrough` and packing or unpacking `boolFields` in `flagFieldName`. */
  datatype Conversion = Conversion(
    direction: Direction,
    structName: Ident, originalName: Ident,
    flagFieldName: Ident, flagsName: Ident,
    passthrough: seq<PassField>, boolFields: seq<BoolField>)

  /** `impl_from`; the source reaches `unreachable!()` on a struct without named fields. */
  function ImplFrom(compacted: Struct, originalName: Ident, flagFieldName: Ident, flagsName: Ident,
                    boolFields: seq<BoolField>): (r: Conversion)
    requires compacted.fields.Named?
    ensures r.direction == FromFlat && r.structName == compacted.ident && r.originalName == originalName
    ensures r.flagFieldName == flagFieldName && r.flagsName == flagsName && r.boolFields == boolFields
    ensures |r.passthrough| <= |compacted.fields.named|
    ensures forall p :: p in r.passthrough ==> p.ident != flagFieldName
  {
    Conversion(FromFlat, compacted.ident, originalName, flagFieldName, flagsName,
               ExtractPassthroughFields(compacted.fields.named, flagFieldName), boolFields)
  }

  /** `impl_into`; the same fields as `impl_from`, in the other direction. */
  function ImplInto(compacted: Struct, originalName: Ident, flagFieldName: Ident, flagsName: Ident,
                    boolFields: seq<BoolField>): (r: Conversion)
    requires compacted.fields.Named?
    ensures r.direction == IntoFlat && r.structName == compacted.ident && r.originalName == originalName
    ensures r.flagFieldName == flagFieldName && r.flagsName == flagsName && r.boolFields == boolFields
    ensures |r.passthrough| <= |compacted.fields.named|
    ensures forall p :: p in r.passthrough ==> p.ident != flagFieldName
  {
    Conversion(IntoFlat, compacted.ident, originalName, flagFieldName, flagsName,
               ExtractPassthroughFields(compacted.fields.named, flagFieldName), boolFields)
  }

  function EnabledPassIdents(pfs: seq<PassField>, active: set<string>): set<Ident>
  {
    set p | p in pfs && Enabled(p.cfgs, active) :: p.ident
  }

  function EnabledBoolIdents(bfs: seq<BoolField>, active: set<string>): set<Ident>
  {
    set bf | bf in bfs && Enabled(bf.field.attrs, active) :: bf.field.ident
  }

  /** The pass-through part of a struct literal: each field compiled in is copied verbatim. */
  function CopyFields(pfs: seq<PassField>, active: set<string>, src: Record): (r: Record)
    ensures r.Keys == EnabledPassIdents(pfs, active) * src.Keys
    ensures forall n :: n in r ==> r[n] == src[n]
  {
    map n | n in src.Keys * EnabledPassIdents(pfs, active) :: src[n]
  }

  /** Every packed field compiled in is present in `v` with a value of its own kind. */
  predicate FlatTyped(bfs: seq<BoolField>, active: set<string>, v: Record)
  {
    forall bf :: bf in bfs && Enabled(bf.field.attrs, active) ==>
      bf.field.ident in v && Typed(bf, v[bf.field.ident])
  }

  /** One statement of the `from` body, guarded by the field's cfgs: a bool sets its flag to the
      field's value; `Some(b)` turns the presence flag on and sets the value flag to `b`;
      `None` touches nothing. */
  function FlagUpdate(bf: BoolField, active: set<string>, v: Record, flags: FlagSet): (r: FlagSet)
    requires FlatTyped([bf], active, v)
    ensures !Enabled(bf.field.attrs, active) ==> r == flags
    ensures forall b :: b !in BitsOf(bf) ==> (b in r <==> b in flags)
  {
    if !Enabled(ExtractCfgs(bf.field.attrs), active) then flags
    else
      var x := v[bf.field.ident];
      if x.BoolV? then Set(flags, bf.flagBit, x.b)
      else if x.o.Some? then Set(Insert(flags, bf.tagBit.value), bf.flagBit, x.o.value)
      else flags
  }

  /** The `from` body's `let mut flags = ..::empty(); ..; flags` fold, starting at `flags`. */
  function FoldFlags(bfs: seq<BoolField>, active: set<string>, v: Record, flags: FlagSet): (r: FlagSet)
    requires FlatTyped(bfs, active, v)
    ensures forall b :: (forall j :: 0 <= j < |bfs| ==> b !in BitsOf(bfs[j])) ==> (b in r <==> b in flags)
    decreases |bfs|
  {
    if bfs == [] then flags
    else
      assert FlatTyped([bfs[0]], active, v);
      FoldFlags(bfs[1..], active, v, FlagUpdate(bfs[0], active, v, flags))
  }

  /** What the emitted `from` computes on a flat value. */
  function RunFrom(c: Conversion, active: set<string>, v: Record): (r: CompactedValue)
    requires FlatTyped(c.boolFields, active, v)
    ensures r.others.Keys == EnabledPassIdents(c.passthrough, active) * v.Keys
    ensures forall n :: n in r.others ==> r.others[n] == v[n]
    ensures forall b :: (forall j :: 0 <= j < |c.boolFields| ==> b !in BitsOf(c.boolFields[j])) ==> b !in r.flags
  {
    CompactedValue(CopyFields(c.passthrough, active, v), FoldFlags(c.boolFields, active, v, Empty))
  }

  /** The bool part of the `into` struct literal: each packed field compiled in, read back
      through its getter body. */
  function BoolPart(bfs: seq<BoolField>, active: set<string>, flags: FlagSet): (r: Record)
    ensures r.Keys == EnabledBoolIdents(bfs, active)
    decreases |bfs|
  {
    if bfs == [] then map[]
    else
      var rest := BoolPart(bfs[1..], active, flags);
      assert forall bf :: bf in bfs[1..] ==> bf in bfs;
      assert forall bf :: bf in bfs ==> bf == bfs[0] || bf in bfs[1..];
      if Enabled(bfs[0].field.attrs, active) then rest[bfs[0].field.ident := GetterValue(bfs[0], flags)]
      else rest
  }

  /** What the emitted `into` computes on a compacted value. */
  function RunInto(c: Conversion, active: set<string>, cv: CompactedValue): (r: Record)
    ensures r.Keys == EnabledBoolIdents(c.boolFields, active) + EnabledPassIdents(c.passthrough, active) * cv.others.Keys
  {
    BoolPart(c.boolFields, active, cv.flags) + CopyFields(c.passthrough, active, cv.others)
  }

  /** `v` is a legal value of the flat struct for the fields a conversion knows about. */
  ghost predicate FlatFits(c: Conversion, active: set<string>, v: Record)
  {
    && v.Keys == EnabledBoolIdents(c.boolFields, active) + EnabledPassIdents(c.passthrough, active)
    && EnabledBoolIdents(c.boolFields, active) !! EnabledPassIdents(c.passthrough, active)
    && FlatTyped(c.boolFields, active, v)
  }

  /** A step of the fold only moves the bits of its own field. */
  lemma UpdateFrame(bf: BoolField, active: set<string>, v: Record, acc: FlagSet, b: nat)
    requires FlatTyped([bf], active, v)
    requires b !in BitsOf(bf)
    ensures b in FlagUpdate(bf, active, v, acc) <==> b in acc
  {
  }

  /** After its step, a field compiled in reads back as its flat value, provided its bits
      started clear. */
  lemma UpdateDecodes(bf: BoolField, active: set<string>, v: Record, acc: FlagSet)
    requires FlatTyped([bf], active, v)
    requires Enabled(bf.field.attrs, active)
    requires bf.tagBit != Some(bf.flagBit)
    requires forall b :: b in BitsOf(bf) ==> b !in acc
    ensures GetterValue(bf, FlagUpdate(bf, active, v, acc)) == v[bf.field.ident]
  {
    assert bf in [bf];
    assert bf.flagBit in BitsOf(bf);
    if bf.tagBit.Some? {
      assert bf.tagBit.value in BitsOf(bf);
    }
  }

  /** The fold leaves alone every bit no field in it uses. */
  lemma {:induction false} FoldFrame(bfs: seq<BoolField>, active: set<string>, v: Record, acc: FlagSet, b: nat)
    requires FlatTyped(bfs, active, v)
    requires forall j :: 0 <= j < |bfs| ==> b !in BitsOf(bfs[j])
    ensures b in FoldFlags(bfs, active, v, acc) <==> b in acc
    decreases |bfs|
  {
    if bfs != [] {
      assert FlatTyped([bfs[0]], active, v);
      assert b !in BitsOf(bfs[0]);
      UpdateFrame(bfs[0], active, v, acc, b);
      var acc1 := FlagUpdate(bfs[0], active, v, acc);
      forall j | 0 <= j < |bfs[1..]|
        ensures b !in BitsOf(bfs[1..][j])
      {
        assert bfs[1..][j] == bfs[j + 1];
      }
      FoldFrame(bfs[1..], active, v, acc1, b);
    }
  }

  /** After the whole fold, field k reads back as its flat value. */
  lemma {:induction false} FoldDecodes(bfs: seq<BoolField>, active: set<string>, v: Record, acc: FlagSet, k: nat)
    requires DistinctBits(bfs)
    requires FlatTyped(bfs, active, v)
    requires k < |bfs| && Enabled(bfs[k].field.attrs, active)
    requires forall b :: b in BitsOf(bfs[k]) ==> b !in acc
    ensures GetterValue(bfs[k], FoldFlags(bfs, active, v, acc)) == v[bfs[k].field.ident]
    decreases |bfs|
  {
    assert FlatTyped([bfs[0]], active, v);
    var acc1 := FlagUpdate(bfs[0], active, v, acc);
    DistinctBitsTail(bfs);
    var rest := bfs[1..];
    var result := FoldFlags(bfs, active, v, acc);
    assert result == FoldFlags(rest, active, v, acc1);
    if k == 0 {
      UpdateDecodes(bfs[0], active, v, acc);
      forall b | b in BitsOf(bfs[0])
        ensures b in result <==> b in acc1
      {
        FoldFrame(rest, active, v, acc1, b);
      }
      GetterValueLocal(bfs[0], result, acc1);
    } else {
      assert bfs[k] == rest[k - 1];
      assert BitsOf(bfs[0]) !! BitsOf(bfs[k]);
      forall b | b in BitsOf(bfs[k])
        ensures b !in acc1
      {
        UpdateFrame(bfs[0], active, v, acc, b);
      }
      FoldDecodes(rest, active, v, acc1, k - 1);
    }
  }

  /** When every packed field reads back as its flat value, the bool part of `into` rebuilds
      exactly those fields of `v`. */
  lemma {:induction false} BoolPartRestores(bfs: seq<BoolField>, active: set<string>, flags: FlagSet, v: Record)
    requires forall bf :: bf in bfs && Enabled(bf.field.attrs, active) ==>
      bf.field.ident in v && GetterValue(bf, flags) == v[bf.field.ident]
    ensures BoolPart(bfs, active, flags) == map n | n in EnabledBoolIdents(bfs, active) :: v[n]
    decreases |bfs|
  {
    if bfs != [] {
      assert forall bf :: bf in bfs[1..] ==> bf in bfs;
      BoolPartRestores(bfs[1..], active, flags, v);
    }
  }

  /** After the `from` fold, every packed field compiled in reads back as its flat value. */
  lemma FoldReadsBack(bfs: seq<BoolField>, active: set<string>, v: Record)
    requires DistinctBits(bfs)
    requires FlatTyped(bfs, active, v)
    ensures forall bf :: bf in bfs && Enabled(bf.field.attrs, active) ==>
      bf.field.ident in v && GetterValue(bf, FoldFlags(bfs, active, v, Empty)) == v[bf.field.ident]
  {
    forall bf | bf in bfs && Enabled(bf.field.attrs, active)
      ensures bf.field.ident in v && GetterValue(bf, FoldFlags(bfs, active, v, Empty)) == v[bf.field.ident]
    {
      var k :| 0 <= k < |bfs| && bfs[k] == bf;
      FoldDecodes(bfs, active, v, Empty, k);
    }
  }

  /** The round trip: converting a legal flat value to the compacted shape and back gives it
      back unchanged, pass-through fields and all three states of every `Option<bool>`
      included. */
  lemma RoundTrip(c: Conversion, active: set<string>, v: Record)
    requires DistinctBits(c.boolFields)
    requires FlatFits(c, active, v)
    ensures RunInto(c, active, RunFrom(c, active, v)) == v
  {
    var bfs := c.boolFields;
    FoldReadsBack(bfs, active, v);
    BoolPartRestores(bfs, active, FoldFlags(bfs, active, v, Empty), v);
    var r := RunInto(c, active, RunFrom(c, active, v));
    assert r.Keys == v.Keys;
  }
}
