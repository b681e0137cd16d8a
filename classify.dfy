/** Field classification and bit assignment (src/impl.rs): which fields are packed, how the
    field list is rebuilt around the generated flag field, and which bits each packed field uses. */
module Classify {
  import opened Wrappers
  import opened Ast
  import opened Seqs

  datatype Kind = PlainBool | OptionalBool | PassThrough

  /** A path type whose first segment is `bool`; purely syntactic, no alias resolution. */
  predicate IsBoolTy(ty: Ty)
  {
    ty.PathTy? && |ty.segments| > 0 && ty.segments[0].ident == "bool"
  }

  /** `Option<T>` with exactly one generic argument that is itself a bool type. */
  predicate IsOptionBoolTy(ty: Ty)
  {
    && ty.PathTy? && |ty.segments| == 1
    && ty.segments[0].ident == "Option"
    && |ty.segments[0].args| == 1
    && IsBoolTy(ty.segments[0].args[0])
  }

  /** `is_bool_field`: a field is a plain bool exactly when its type's first segment is
      `bool`, an optional bool exactly when it is `Option<bool>`; the two never overlap. */
  function KindOf(f: Field): (r: Kind)
    ensures r == PlainBool <==> IsBoolTy(f.ty)
    ensures r == OptionalBool <==> IsOptionBoolTy(f.ty)
    ensures r == PassThrough <==> !IsBoolTy(f.ty) && !IsOptionBoolTy(f.ty)
  {
    if IsBoolTy(f.ty) then PlainBool
    else if IsOptionBoolTy(f.ty) then OptionalBool
    else PassThrough
  }

  predicate IsPackable(f: Field) { KindOf(f) != PassThrough }

  predicate IsPassThrough(f: Field) { KindOf(f) == PassThrough }

  predicate IsOptionalBool(f: Field) { KindOf(f) == OptionalBool }

  /** `extract_bool_fields`: only a named-field struct is accepted; its fields are streamed once,
      packable ones pushed onto the bool list and the rest kept, and the flag field is appended. */
  method ExtractBoolFields(flagField: Field, fields: Fields) returns (r: Result<(Fields, seq<Field>), Failure>)
    ensures r.Err? <==> !fields.Named?
    ensures r.Err? ==> r.error == Custom(NamedOnlyMessage)
    ensures r.Ok? ==> r.value.0 == Named(Filter(fields.named, IsPassThrough) + [flagField])
    ensures r.Ok? ==> r.value.1 == Filter(fields.named, IsPackable)
  {
    if !fields.Named? {
      return Err(Custom(NamedOnlyMessage));
    }
    var named := fields.named;
    var boolFields: seq<Field> := [];
    var kept: seq<Field> := [];
    var i := 0;
    while i < |named|
      invariant 0 <= i <= |named|
      invariant kept == Filter(named[..i], IsPassThrough)
      invariant boolFields == Filter(named[..i], IsPackable)
    {
      var field := named[i];
      if IsPackable(field) {
        boolFields := boolFields + [field];
      } else {
        kept := kept + [field];
      }
      FilterSnoc(named, i, IsPassThrough);
      FilterSnoc(named, i, IsPackable);
      i := i + 1;
    }
    assert named[..i] == named;
    return Ok((Named(kept + [flagField]), boolFields));
  }

  /** Every field lands in exactly one of the two lists, and both keep declaration order. */
  lemma ClassificationPartition(fs: seq<Field>)
    ensures multiset(Filter(fs, IsPackable)) + multiset(Filter(fs, IsPassThrough)) == multiset(fs)
    ensures |Filter(fs, IsPackable)| + |Filter(fs, IsPassThrough)| == |fs|
  {
    FilterPartition(fs, IsPackable, IsPassThrough);
  }

  /** The `#[cfg]` attributes of a field, in order. */
  function ExtractCfgs(attrs: seq<Attr>): (r: seq<Attr>)
    ensures forall a :: a in r <==> a in attrs && a.CfgAttr?
    ensures forall active :: Enabled(r, active) <==> Enabled(attrs, active)
  {
    Filter(attrs, (a: Attr) => a.CfgAttr?)
  }

  /** A packed field: its declaration, the bit of its value flag and, for `Option<bool>`, the
      bit of its presence (tag) flag. */
  datatype BoolField = BoolField(field: Field, flagBit: nat, tagBit: Option<nat>)

  function BitsOf(bf: BoolField): set<nat>
  {
    {bf.flagBit} + (if bf.tagBit.Some? then {bf.tagBit.value} else {})
  }

  /** Every bit is used by one flag only. */
  ghost predicate DistinctBits(bfs: seq<BoolField>)
  {
    && (forall i :: 0 <= i < |bfs| ==> bfs[i].tagBit != Some(bfs[i].flagBit))
    && (forall i, j :: 0 <= i < j < |bfs| ==> BitsOf(bfs[i]) !! BitsOf(bfs[j]))
  }

  /** Every bit is used by one flag only, and every bit is below `demand`. */
  ghost predicate WellLaidOut(bfs: seq<BoolField>, demand: nat)
  {
    && DistinctBits(bfs)
    && (forall i, b :: 0 <= i < |bfs| && b in BitsOf(bfs[i]) ==> b < demand)
  }

  lemma DistinctBitsTail(bfs: seq<BoolField>)
    requires |bfs| > 0 && DistinctBits(bfs)
    ensures DistinctBits(bfs[1..])
    ensures forall j :: 0 <= j < |bfs[1..]| ==> BitsOf(bfs[0]) !! BitsOf(bfs[1..][j])
  {
    var t := bfs[1..];
    forall i, j | 0 <= i < j < |t|
      ensures BitsOf(t[i]) !! BitsOf(t[j])
    {
      assert t[i] == bfs[i + 1] && t[j] == bfs[j + 1];
    }
    forall j | 0 <= j < |t|
      ensures BitsOf(bfs[0]) !! BitsOf(t[j])
    {
      assert t[j] == bfs[j + 1];
    }
  }

  function CountOptional(fs: seq<Field>): nat
  {
    |Filter(fs, IsOptionalBool)|
  }

  /** One bit per packed field plus one presence bit per `Option<bool>`. */
  function BitDemand(fs: seq<Field>): nat
  {
    |fs| + CountOptional(fs)
  }

  /** Field i gets value bit i; the presence bits follow all value bits, in field order. */
  function AssignBits(fs: seq<Field>): (r: seq<BoolField>)
    ensures |r| == |fs|
    ensures forall i :: 0 <= i < |fs| ==> r[i].field == fs[i] && r[i].flagBit == i
    ensures forall i :: 0 <= i < |fs| ==> (r[i].tagBit.Some? <==> IsOptionalBool(fs[i]))
  {
    seq(|fs|, i requires 0 <= i < |fs| =>
      BoolField(fs[i], i, if IsOptionalBool(fs[i]) then Some(|fs| + CountOptional(fs[..i])) else None))
  }

  lemma CountOptionalMonotone(fs: seq<Field>, i: nat, j: nat)
    requires i <= j <= |fs|
    ensures CountOptional(fs[..i]) <= CountOptional(fs[..j])
  {
    assert fs[..j] == fs[..i] + fs[i..j];
    FilterConcat(fs[..i], fs[i..j], IsOptionalBool);
  }

  /** The presence bit of an optional field lies past every value bit and below the demand. */
  lemma TagBitInRange(fs: seq<Field>, i: nat)
    requires i < |fs| && IsOptionalBool(fs[i])
    ensures CountOptional(fs[..i]) < CountOptional(fs)
    ensures AssignBits(fs)[i].tagBit.Some?
    ensures |fs| <= AssignBits(fs)[i].tagBit.value < BitDemand(fs)
  {
    FilterSnoc(fs, i, IsOptionalBool);
    CountOptionalMonotone(fs, i + 1, |fs|);
    assert fs[..|fs|] == fs;
  }

  /** Later optional fields get strictly later presence bits. */
  lemma TagBitsIncrease(fs: seq<Field>, i: nat, j: nat)
    requires i < j < |fs| && IsOptionalBool(fs[i])
    ensures CountOptional(fs[..i]) < CountOptional(fs[..j])
    ensures AssignBits(fs)[j].tagBit.Some? ==> AssignBits(fs)[i].tagBit.value < AssignBits(fs)[j].tagBit.value
  {
    FilterSnoc(fs, i, IsOptionalBool);
    CountOptionalMonotone(fs, i + 1, j);
  }

  lemma AssignBitsTag(fs: seq<Field>, i: nat)
    requires i < |fs| && IsOptionalBool(fs[i])
    ensures AssignBits(fs)[i].tagBit == Some(|fs| + CountOptional(fs[..i]))
  {
  }

  lemma BitsDisjoint(a: BoolField, b: BoolField)
    requires a.flagBit != b.flagBit
    requires a.tagBit.Some? ==> a.tagBit.value != b.flagBit
    requires b.tagBit.Some? ==> b.tagBit.value != a.flagBit
    requires a.tagBit.Some? && b.tagBit.Some? ==> a.tagBit.value != b.tagBit.value
    ensures BitsOf(a) !! BitsOf(b)
  {
  }

  /** The bits handed out by AssignBits are pairwise distinct and all below the bit demand. */
  lemma AssignBitsWellLaidOut(fs: seq<Field>)
    ensures WellLaidOut(AssignBits(fs), BitDemand(fs))
  {
    var r := AssignBits(fs);
    var n := |fs|;
    forall i | 0 <= i < n
      ensures r[i].tagBit.Some? ==> n <= r[i].tagBit.value < BitDemand(fs)
    {
      if IsOptionalBool(fs[i]) {
        AssignBitsTag(fs, i);
        TagBitInRange(fs, i);
      }
    }
    forall i, j | 0 <= i < j < n
      ensures BitsOf(r[i]) !! BitsOf(r[j])
    {
      if IsOptionalBool(fs[i]) && IsOptionalBool(fs[j]) {
        AssignBitsTag(fs, i);
        AssignBitsTag(fs, j);
        TagBitsIncrease(fs, i, j);
      }
      BitsDisjoint(r[i], r[j]);
    }
  }
}
