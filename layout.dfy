/** Layout of the generated flags type (src/impl.rs): the backing width and the constant of
    each bit. */
module Layout {
  import opened Wrappers
  import opened Ast
  import opened Bitflags
  import opened Classify

  datatype Width = U8 | U16 | U32 | U64 | U128

  function Bits(w: Width): nat
  {
    match w
    case U8 => 8
    case U16 => 16
    case U32 => 32
    case U64 => 64
    case U128 => 128
  }

  /** `get_flag_size`: the narrowest unsigned integer holding `boolCount` flags; more than 128
      flags make the macro panic. */
  function GetFlagSize(boolCount: nat): (r: Result<Width, Failure>)
    ensures r.Ok? <==> boolCount <= 128
    ensures r.Err? ==> r.error == FlagOverflowPanic(boolCount)
    ensures r.Ok? ==> boolCount <= Bits(r.value)
    ensures r.Ok? ==> forall w :: boolCount <= Bits(w) ==> Bits(r.value) <= Bits(w)
  {
    if boolCount <= 8 then Ok(U8)
    else if boolCount <= 16 then Ok(U16)
    else if boolCount <= 32 then Ok(U32)
    else if boolCount <= 64 then Ok(U64)
    else if boolCount <= 128 then Ok(U128)
    else Err(FlagOverflowPanic(boolCount))
  }

  /** The constants of bits 0 .. n-1, in bit order: bit i's constant is `1 << i`, as an
      unsigned value of the backing width. */
  function FlagValues(n: nat): (r: seq<nat>)
    ensures |r| == n
    ensures forall i :: 0 <= i < n ==> r[i] == Pow2(i)
    ensures forall i, j :: 0 <= i < j < n ==> r[i] < r[j]
  {
    var r := seq(n, i requires 0 <= i < n => Pow2(i));
    assert forall i, j :: 0 <= i < j < n ==> r[i] < r[j] by {
      forall i, j | 0 <= i < j < n
        ensures r[i] < r[j]
      {
        Pow2StrictlyIncreasing(i, j);
      }
    }
    r
  }

  /** `1 << i` exactly as the source evaluates it: the literal `1` is an `i32`, so bit 31 lands
      on the sign bit and any shift of 32 or more overflows, which panics when overflow checks
      are on (they are in debug builds). */
  function FlagValueAsWritten(i: nat): (r: Option<int>)
    ensures r.Some? <==> i < 32
  {
    if i >= 32 then None
    else
      var v := Pow2(i);
      Some(if v < 0x8000_0000 then v else v - 0x1_0000_0000)
  }

  lemma Pow2Of31()
    ensures Pow2(31) == 0x8000_0000
  {
    assert Pow2(8) == 256;
    assert Pow2(16) == 65536;
    assert Pow2(24) == 16777216;
  }

  /** With 32 flags the width is u32 but the constant of bit 31 comes out negative; with 33
      flags the width is u64 but computing the constant of bit 32 overflows. */
  lemma FlagValueAsWrittenBreaksWideLayouts()
    ensures GetFlagSize(32) == Ok(U32) && FlagValueAsWritten(31) == Some(-0x8000_0000)
    ensures GetFlagSize(33) == Ok(U64) && FlagValueAsWritten(32) == None
  {
    Pow2Of31();
  }

  /** The flags type's constants are pairwise distinct single bits that fit the chosen width. */
  lemma {:induction false} FlagValuesDistinctAndFit(n: nat, w: Width)
    requires n <= Bits(w)
    ensures forall i, j :: 0 <= i < j < n ==> FlagValues(n)[i] != FlagValues(n)[j]
    ensures forall i :: 0 <= i < n ==> 1 <= FlagValues(n)[i] < Pow2(Bits(w))
  {
    var r := FlagValues(n);
    forall i, j | 0 <= i < j < n
      ensures r[i] != r[j]
    {
      Pow2Injective(i, j);
    }
    forall i | 0 <= i < n
      ensures r[i] < Pow2(Bits(w))
    {
      Pow2StrictlyIncreasing(i, Bits(w));
    }
  }

  /** The generated flags type: its name, backing width, bit constants and the attributes
      forwarded from the struct. */
  datatype FlagsType = FlagsType(ident: Ident, width: Width, values: seq<nat>, attrs: seq<Attr>)

  /** `generate_bitflags_type`: one constant per bit the packed fields demand. */
  function GenerateBitflagsType(flagsName: Ident, boolFields: seq<Field>, flagsDerives: seq<Attr>)
    : (r: Result<FlagsType, Failure>)
    ensures r.Ok? <==> BitDemand(boolFields) <= 128
    ensures r.Err? ==> r.error == FlagOverflowPanic(BitDemand(boolFields))
    ensures r.Ok? ==> r.value.ident == flagsName && r.value.attrs == flagsDerives
    ensures r.Ok? ==> Ok(r.value.width) == GetFlagSize(BitDemand(boolFields))
    ensures r.Ok? ==> |r.value.values| == BitDemand(boolFields) <= Bits(r.value.width)
    ensures r.Ok? ==> forall i :: 0 <= i < |r.value.values| ==> r.value.values[i] == Pow2(i)
  {
    var demand := BitDemand(boolFields);
    match GetFlagSize(demand)
    case Err(e) => Err(e)
    case Ok(w) => Ok(FlagsType(flagsName, w, FlagValues(demand), flagsDerives))
  }

  /** Every bit a packed field uses names one of the flags type's constants, and those
      constants are distinct single bits within the width. */
  lemma LaidOutFieldsFitFlagsType(fs: seq<Field>, flagsName: Ident, derives: seq<Attr>)
    requires GenerateBitflagsType(flagsName, fs, derives).Ok?
    ensures var t := GenerateBitflagsType(flagsName, fs, derives).value;
      && WellLaidOut(AssignBits(fs), |t.values|)
      && (forall i, j :: 0 <= i < j < |t.values| ==> t.values[i] != t.values[j])
      && (forall i :: 0 <= i < |t.values| ==> t.values[i] < Pow2(Bits(t.width)))
  {
    var t := GenerateBitflagsType(flagsName, fs, derives).value;
    AssignBitsWellLaidOut(fs);
    FlagValuesDistinctAndFit(BitDemand(fs), t.width);
  }

  /** tests/many.rs: 17 bools need a u32; tests/basic.rs: 2 bools fit one byte. */
  lemma WidthExamples()
    ensures GetFlagSize(17) == Ok(U32)
    ensures GetFlagSize(2) == Ok(U8)
    ensures GetFlagSize(129) == Err(FlagOverflowPanic(129))
  {
  }
}
