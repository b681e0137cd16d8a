/** Derive hijacking (src/derive_hijack.rs): serde's `Serialize` / `Deserialize` are taken out
    of the derive lists forwarded to the flags type, remembered in a two-bit set, and turned
    into `#[serde(into = ..)]` / `#[serde(from = ..)]` directives on the compacted struct. */
module DeriveHijack {
  import opened Wrappers
  import opened Ast
  import opened Seqs
  import opened Bitflags
  import opened Classify
  import opened FromInto

  /** `DerivedTraits`, a bitflags type over `u8`: SERDE_DE is 0b01 (bit 0), SERDE_SER 0b10 (bit 1). */
  type DerivedTraits = FlagSet

  const SERDE_DE: nat := 0
  const SERDE_SER: nat := 1

  predicate IsSerdeSerialize(p: SynPath)
  {
    |p| >= 2 && p[0] == "serde" && p[1] == "Serialize"
  }

  predicate IsSerdeDeserialize(p: SynPath)
  {
    |p| >= 2 && p[0] == "serde" && p[1] == "Deserialize"
  }

  /** A derive path survives unless it has no segments or names serde's Serialize or
      Deserialize; any other `serde` path, a bare `serde` included, survives. */
  predicate KeepDerive(p: SynPath)
  {
    |p| > 0 && !IsSerdeSerialize(p) && !IsSerdeDeserialize(p)
  }

  function FilterDerives(paths: seq<SynPath>): (r: seq<SynPath>)
    ensures forall p :: p in r <==> p in paths && KeepDerive(p)
  {
    Filter(paths, KeepDerive)
  }

  /** The capability one path requests. */
  function TraitOf(p: SynPath): DerivedTraits
  {
    if IsSerdeSerialize(p) then {SERDE_SER}
    else if IsSerdeDeserialize(p) then {SERDE_DE}
    else {}
  }

  /** The capabilities a derive list requests. */
  function Requested(paths: seq<SynPath>): (r: DerivedTraits)
    ensures r <= {SERDE_DE, SERDE_SER}
    decreases |paths|
  {
    if paths == [] then {}
    else Requested(paths[..|paths| - 1]) + TraitOf(paths[|paths| - 1])
  }

  /** A derive list requests exactly the capabilities it names a path for. */
  lemma {:induction false} RequestedSpec(paths: seq<SynPath>)
    ensures SERDE_SER in Requested(paths) <==> exists i :: 0 <= i < |paths| && IsSerdeSerialize(paths[i])
    ensures SERDE_DE in Requested(paths) <==> exists i :: 0 <= i < |paths| && IsSerdeDeserialize(paths[i])
    decreases |paths|
  {
    if paths != [] {
      var init := paths[..|paths| - 1];
      RequestedSpec(init);
      assert forall i :: 0 <= i < |init| ==> init[i] == paths[i];
    }
  }

  /** `set_custom_impls`: filters one derive list, adds what it requests to `should_impl`, and
      produces the conversion impls for the capabilities requested so far. */
  method SetCustomImpls(compacted: Struct, flagFieldName: Ident, originalPath: Ident, flagsName: Ident,
                        boolFields: seq<BoolField>, shouldImplIn: DerivedTraits, deriveMacros: seq<SynPath>)
    returns (derive: Attr, serdeFrom: Option<Conversion>, serdeInto: Option<Conversion>, shouldImpl: DerivedTraits)
    requires compacted.fields.Named?
    ensures derive == DeriveAttr(FilterDerives(deriveMacros))
    ensures shouldImpl == shouldImplIn + Requested(deriveMacros)
    ensures serdeFrom == if SERDE_DE in shouldImpl
      then Some(ImplFrom(compacted, originalPath, flagFieldName, flagsName, boolFields)) else None
    ensures serdeInto == if SERDE_SER in shouldImpl
      then Some(ImplInto(compacted, originalPath, flagFieldName, flagsName, boolFields)) else None
  {
    var filteredDerives: seq<SynPath> := [];
    shouldImpl := shouldImplIn;
    var i := 0;
    while i < |deriveMacros|
      invariant 0 <= i <= |deriveMacros|
      invariant filteredDerives == FilterDerives(deriveMacros[..i])
      invariant shouldImpl == shouldImplIn + Requested(deriveMacros[..i])
    {
      var path := deriveMacros[i];
      FilterSnoc(deriveMacros, i, KeepDerive);
      assert deriveMacros[..i + 1][..i] == deriveMacros[..i];
      assert Requested(deriveMacros[..i + 1]) == Requested(deriveMacros[..i]) + TraitOf(path);
      if |path| == 0 {
        // a path without segments is skipped
        assert !KeepDerive(path) && TraitOf(path) == {};
      } else if path[0] != "serde" {
        assert KeepDerive(path) && TraitOf(path) == {};
        filteredDerives := filteredDerives + [path];
      } else if |path| >= 2 && path[1] == "Serialize" {
        assert !KeepDerive(path) && TraitOf(path) == {SERDE_SER};
        shouldImpl := Insert(shouldImpl, SERDE_SER);
      } else if |path| >= 2 && path[1] == "Deserialize" {
        assert !KeepDerive(path) && TraitOf(path) == {SERDE_DE};
        shouldImpl := Insert(shouldImpl, SERDE_DE);
      } else {
        assert KeepDerive(path) && TraitOf(path) == {};
        filteredDerives := filteredDerives + [path];
      }
      i := i + 1;
    }
    assert deriveMacros[..i] == deriveMacros;
    derive := DeriveAttr(filteredDerives);
    serdeFrom := if SERDE_DE in shouldImpl
      then Some(ImplFrom(compacted, originalPath, flagFieldName, flagsName, boolFields)) else None;
    serdeInto := if SERDE_SER in shouldImpl
      then Some(ImplInto(compacted, originalPath, flagFieldName, flagsName, boolFields)) else None;
  }

  /** An attribute as forwarded to the flags type: a derive list filtered, anything else as is. */
  function RewriteAttr(a: Attr): Attr
  {
    if a.DeriveAttr? then DeriveAttr(FilterDerives(a.paths)) else a
  }

  /** The forwarded attributes: one per struct attribute, at the same position; each derive
      replaced by its filtered list, every other attribute unchanged. */
  function RewriteAttrs(attrs: seq<Attr>): (r: seq<Attr>)
    ensures |r| == |attrs|
    ensures forall i :: 0 <= i < |attrs| && !attrs[i].DeriveAttr? ==> r[i] == attrs[i]
    ensures forall i :: 0 <= i < |attrs| && attrs[i].DeriveAttr? ==>
      r[i] == DeriveAttr(FilterDerives(attrs[i].paths))
  {
    seq(|attrs|, i requires 0 <= i < |attrs| => RewriteAttr(attrs[i]))
  }

  /** The capabilities requested by all derive attributes of a struct together. */
  function RequestedAll(attrs: seq<Attr>): (r: DerivedTraits)
    ensures r <= {SERDE_DE, SERDE_SER}
    decreases |attrs|
  {
    if attrs == [] then {}
    else
      var last := attrs[|attrs| - 1];
      RequestedAll(attrs[..|attrs| - 1]) + (if last.DeriveAttr? then Requested(last.paths) else {})
  }

  /** The requested capabilities only grow as the attributes are walked. */
  lemma {:induction false} RequestedAllGrows(attrs: seq<Attr>, i: nat)
    requires i <= |attrs|
    ensures RequestedAll(attrs[..i]) <= RequestedAll(attrs)
    decreases |attrs|
  {
    if i < |attrs| {
      var init := attrs[..|attrs| - 1];
      assert attrs[..i] == init[..i];
      RequestedAllGrows(init, i);
    } else {
      assert attrs[..i] == attrs;
    }
  }

  /** A struct requests a capability exactly when one of its derive attributes does. */
  lemma {:induction false} RequestedAllSpec(attrs: seq<Attr>, t: nat)
    ensures t in RequestedAll(attrs) <==>
      exists i :: 0 <= i < |attrs| && attrs[i].DeriveAttr? && t in Requested(attrs[i].paths)
    decreases |attrs|
  {
    if attrs != [] {
      var init := attrs[..|attrs| - 1];
      RequestedAllSpec(init, t);
      assert forall i :: 0 <= i < |init| ==> init[i] == attrs[i];
    }
  }

  /** `#[serde(from = "path")]` and `#[serde(into = "path")]`. */
  function SerdeFrom(path: string): Attr
  {
    OtherAttr(["serde"], "from = \"" + path + "\"")
  }

  function SerdeInto(path: string): Attr
  {
    OtherAttr(["serde"], "into = \"" + path + "\"")
  }

  lemma SerdeDirectivesDiffer(path: string)
    ensures SerdeFrom(path) != SerdeInto(path)
  {
    assert SerdeFrom(path).args[0] == 'f';
    assert SerdeInto(path).args[0] == 'i';
  }

  /** The directives for every capability in `traits`. */
  function AllDirectives(traits: DerivedTraits, path: string): seq<Attr>
  {
    (if SERDE_DE in traits then [SerdeFrom(path)] else [])
    + (if SERDE_SER in traits then [SerdeInto(path)] else [])
  }

  /** The directives for the capabilities in `after` that were not yet in `before`. */
  function NewDirectives(before: DerivedTraits, after: DerivedTraits, path: string): seq<Attr>
  {
    (if SERDE_DE in after && SERDE_DE !in before then [SerdeFrom(path)] else [])
    + (if SERDE_SER in after && SERDE_SER !in before then [SerdeInto(path)] else [])
  }

  /** The directives `hijack_derives` pushes as written: after each derive attribute, one for
      every capability requested so far. */
  function DirectivesAsWritten(attrs: seq<Attr>, path: string): (r: seq<Attr>)
    ensures forall a :: a in r ==> a == SerdeFrom(path) || a == SerdeInto(path)
    ensures |r| <= 2 * |attrs|
    decreases |attrs|
  {
    if attrs == [] then []
    else
      var init := attrs[..|attrs| - 1];
      DirectivesAsWritten(init, path)
      + (if attrs[|attrs| - 1].DeriveAttr? then AllDirectives(RequestedAll(attrs), path) else [])
  }

  /** The directives pushed when each is emitted only for the derive that first requests it. */
  function Directives(attrs: seq<Attr>, path: string): (r: seq<Attr>)
    ensures forall a :: a in r ==> a == SerdeFrom(path) || a == SerdeInto(path)
    ensures SerdeFrom(path) in r ==> SERDE_DE in RequestedAll(attrs)
    ensures SerdeInto(path) in r ==> SERDE_SER in RequestedAll(attrs)
    decreases |attrs|
  {
    if attrs == [] then []
    else
      var init := attrs[..|attrs| - 1];
      SerdeDirectivesDiffer(path);
      Directives(init, path)
      + (if attrs[|attrs| - 1].DeriveAttr? then NewDirectives(RequestedAll(init), RequestedAll(attrs), path) else [])
  }

  /** Each directive appears exactly once when its capability is requested and never
      otherwise, and nothing else is emitted. */
  lemma {:induction false} DirectivesExactlyOnce(attrs: seq<Attr>, path: string)
    ensures multiset(Directives(attrs, path))[SerdeFrom(path)] == if SERDE_DE in RequestedAll(attrs) then 1 else 0
    ensures multiset(Directives(attrs, path))[SerdeInto(path)] == if SERDE_SER in RequestedAll(attrs) then 1 else 0
    ensures forall d :: d in Directives(attrs, path) ==> d == SerdeFrom(path) || d == SerdeInto(path)
    decreases |attrs|
  {
    SerdeDirectivesDiffer(path);
    if attrs != [] {
      var init := attrs[..|attrs| - 1];
      DirectivesExactlyOnce(init, path);
      assert RequestedAll(init) <= RequestedAll(attrs);
    }
  }

  /** As written, a struct with `#[derive(serde::Deserialize)]` followed by `#[derive(Debug)]`
      gets `#[serde(from = ..)]` twice, which serde rejects as a duplicate attribute. */
  lemma DuplicateDirectiveAsWritten(path: string)
    ensures var attrs := [DeriveAttr([["serde", "Deserialize"]]), DeriveAttr([["Debug"]])];
      && DirectivesAsWritten(attrs, path) == [SerdeFrom(path), SerdeFrom(path)]
      && Directives(attrs, path) == [SerdeFrom(path)]
  {
    var attrs := [DeriveAttr([["serde", "Deserialize"]]), DeriveAttr([["Debug"]])];
    var first := attrs[..1];
    assert attrs[..|attrs| - 1] == first;
    assert first[..0] == [];
    assert Requested([["serde", "Deserialize"]]) == {SERDE_DE};
    assert Requested([["Debug"]]) == {};
    assert RequestedAll(first) == {SERDE_DE};
    assert RequestedAll(attrs) == {SERDE_DE};
  }

  /** One step of the loop in `hijack_derives`: the forwarded attributes grow by the rewritten one. */
  lemma StepRewrite(attrs: seq<Attr>, i: nat)
    requires i < |attrs|
    ensures RewriteAttrs(attrs[..i + 1]) == RewriteAttrs(attrs[..i]) + [RewriteAttr(attrs[i])]
  {
    assert attrs[..i + 1][i] == attrs[i];
  }

  /** An attribute other than `derive` requests nothing and adds no directive. */
  lemma StepOther(attrs: seq<Attr>, i: nat, path: string)
    requires i < |attrs| && !attrs[i].DeriveAttr?
    ensures RequestedAll(attrs[..i + 1]) == RequestedAll(attrs[..i])
    ensures Directives(attrs[..i + 1], path) == Directives(attrs[..i], path)
    ensures DirectivesAsWritten(attrs[..i + 1], path) == DirectivesAsWritten(attrs[..i], path)
  {
    assert attrs[..i + 1][..i] == attrs[..i];
    assert Directives(attrs[..i + 1], path) == Directives(attrs[..i], path) + [];
    assert DirectivesAsWritten(attrs[..i + 1], path) == DirectivesAsWritten(attrs[..i], path) + [];
  }

  /** A `derive` attribute adds what its list requests, and the directives for it. */
  lemma StepDerive(attrs: seq<Attr>, i: nat, path: string)
    requires i < |attrs| && attrs[i].DeriveAttr?
    ensures RequestedAll(attrs[..i + 1]) == RequestedAll(attrs[..i]) + Requested(attrs[i].paths)
    ensures Directives(attrs[..i + 1], path)
      == Directives(attrs[..i], path) + NewDirectives(RequestedAll(attrs[..i]), RequestedAll(attrs[..i + 1]), path)
    ensures DirectivesAsWritten(attrs[..i + 1], path)
      == DirectivesAsWritten(attrs[..i], path) + AllDirectives(RequestedAll(attrs[..i + 1]), path)
  {
    assert attrs[..i + 1][..i] == attrs[..i];
  }

  datatype HijackOutput = HijackOutput(
    compactedStructAttrs: seq<Attr>,
    flagsDerives: seq<Attr>,
    fromIntoImpls: (Option<Conversion>, Option<Conversion>))

  /** The `derive` branch of `hijack_derives` as written: `set_custom_impls` on the derive list,
      the filtered derive forwarded, and for each conversion it returns, the conversion kept and
      its directive pushed. */
  method HijackDeriveAsWritten(compacted: Struct, flagFieldName: Ident, originalPath: Ident, flagsName: Ident,
                               boolFields: seq<BoolField>, paths: seq<SynPath>, shouldImplIn: DerivedTraits,
                               serdeFromIn: Option<Conversion>, serdeIntoIn: Option<Conversion>,
                               newAttrsIn: seq<Attr>, compactedAttrsIn: seq<Attr>)
    returns (shouldImpl: DerivedTraits, serdeFrom: Option<Conversion>, serdeInto: Option<Conversion>,
             newAttrs: seq<Attr>, compactedAttrs: seq<Attr>)
    requires compacted.fields.Named?
    ensures shouldImpl == shouldImplIn + Requested(paths)
    ensures newAttrs == newAttrsIn + [RewriteAttr(DeriveAttr(paths))]
    ensures serdeFrom == if SERDE_DE in shouldImpl
      then Some(ImplFrom(compacted, originalPath, flagFieldName, flagsName, boolFields)) else serdeFromIn
    ensures serdeInto == if SERDE_SER in shouldImpl
      then Some(ImplInto(compacted, originalPath, flagFieldName, flagsName, boolFields)) else serdeIntoIn
    ensures compactedAttrs == compactedAttrsIn + AllDirectives(shouldImpl, originalPath)
  {
    var newDerive, newFrom, newInto;
    newDerive, newFrom, newInto, shouldImpl :=
      SetCustomImpls(compacted, flagFieldName, originalPath, flagsName, boolFields, shouldImplIn, paths);
    newAttrs := newAttrsIn + [newDerive];
    serdeFrom, serdeInto, compactedAttrs := serdeFromIn, serdeIntoIn, compactedAttrsIn;
    if newFrom.Some? {
      serdeFrom := newFrom;
      compactedAttrs := compactedAttrs + [SerdeFrom(originalPath)];
    }
    if newInto.Some? {
      serdeInto := newInto;
      compactedAttrs := compactedAttrs + [SerdeInto(originalPath)];
    }
  }

  /** The `derive` branch with a directive pushed only when its capability is new. */
  method HijackDerive(compacted: Struct, flagFieldName: Ident, originalPath: Ident, flagsName: Ident,
                      boolFields: seq<BoolField>, paths: seq<SynPath>, shouldImplIn: DerivedTraits,
                      serdeFromIn: Option<Conversion>, serdeIntoIn: Option<Conversion>,
                      newAttrsIn: seq<Attr>, compactedAttrsIn: seq<Attr>)
    returns (shouldImpl: DerivedTraits, serdeFrom: Option<Conversion>, serdeInto: Option<Conversion>,
             newAttrs: seq<Attr>, compactedAttrs: seq<Attr>)
    requires compacted.fields.Named?
    ensures shouldImpl == shouldImplIn + Requested(paths)
    ensures newAttrs == newAttrsIn + [RewriteAttr(DeriveAttr(paths))]
    ensures serdeFrom == if SERDE_DE in shouldImpl
      then Some(ImplFrom(compacted, originalPath, flagFieldName, flagsName, boolFields)) else serdeFromIn
    ensures serdeInto == if SERDE_SER in shouldImpl
      then Some(ImplInto(compacted, originalPath, flagFieldName, flagsName, boolFields)) else serdeIntoIn
    ensures compactedAttrs == compactedAttrsIn + NewDirectives(shouldImplIn, shouldImpl, originalPath)
  {
    var newDerive, newFrom, newInto;
    newDerive, newFrom, newInto, shouldImpl :=
      SetCustomImpls(compacted, flagFieldName, originalPath, flagsName, boolFields, shouldImplIn, paths);
    newAttrs := newAttrsIn + [newDerive];
    serdeFrom, serdeInto, compactedAttrs := serdeFromIn, serdeIntoIn, compactedAttrsIn;
    if newFrom.Some? {
      serdeFrom := newFrom;
      if SERDE_DE !in shouldImplIn {
        compactedAttrs := compactedAttrs + [SerdeFrom(originalPath)];
      }
    }
    if newInto.Some? {
      serdeInto := newInto;
      if SERDE_SER !in shouldImplIn {
        compactedAttrs := compactedAttrs + [SerdeInto(originalPath)];
      }
    }
  }

  /** `hijack_derives` as written: a directive is pushed after every derive attribute for each
      capability requested so far. */
  method HijackDerivesAsWritten(compacted: Struct, flagFieldName: Ident, originalPath: Ident, flagsName: Ident,
                                boolFields: seq<BoolField>) returns (out: HijackOutput)
    requires compacted.fields.Named?
    ensures out.flagsDerives == RewriteAttrs(compacted.attrs)
    ensures out.compactedStructAttrs == DirectivesAsWritten(compacted.attrs, originalPath)
    ensures out.fromIntoImpls.0 == if SERDE_DE in RequestedAll(compacted.attrs)
      then Some(ImplFrom(compacted, originalPath, flagFieldName, flagsName, boolFields)) else None
    ensures out.fromIntoImpls.1 == if SERDE_SER in RequestedAll(compacted.attrs)
      then Some(ImplInto(compacted, originalPath, flagFieldName, flagsName, boolFields)) else None
  {
    var attrs := compacted.attrs;
    ghost var fromImpl := ImplFrom(compacted, originalPath, flagFieldName, flagsName, boolFields);
    ghost var intoImpl := ImplInto(compacted, originalPath, flagFieldName, flagsName, boolFields);
    var shouldImpl: DerivedTraits := Empty;
    var serdeFrom: Option<Conversion> := None;
    var serdeInto: Option<Conversion> := None;
    var newAttrs: seq<Attr> := [];
    var compactedAttrs: seq<Attr> := [];
    var i := 0;
    while i < |attrs|
      invariant 0 <= i <= |attrs|
      invariant shouldImpl == RequestedAll(attrs[..i])
      invariant newAttrs == RewriteAttrs(attrs[..i])
      invariant compactedAttrs == DirectivesAsWritten(attrs[..i], originalPath)
      invariant serdeFrom == if SERDE_DE in shouldImpl then Some(fromImpl) else None
      invariant serdeInto == if SERDE_SER in shouldImpl then Some(intoImpl) else None
    {
      var attr := attrs[i];
      StepRewrite(attrs, i);
      if attr.DeriveAttr? {
        StepDerive(attrs, i, originalPath);
        shouldImpl, serdeFrom, serdeInto, newAttrs, compactedAttrs :=
          HijackDeriveAsWritten(compacted, flagFieldName, originalPath, flagsName, boolFields, attr.paths,
                                shouldImpl, serdeFrom, serdeInto, newAttrs, compactedAttrs);
      } else {
        StepOther(attrs, i, originalPath);
        newAttrs := newAttrs + [attr];
      }
      i := i + 1;
    }
    assert attrs[..i] == attrs;
    out := HijackOutput(compactedAttrs, newAttrs, (serdeFrom, serdeInto));
  }

  /** `hijack_derives` with each directive pushed once, by the derive attribute that first
      requests its capability. */
  method HijackDerives(compacted: Struct, flagFieldName: Ident, originalPath: Ident, flagsName: Ident,
                       boolFields: seq<BoolField>) returns (out: HijackOutput)
    requires compacted.fields.Named?
    ensures out.flagsDerives == RewriteAttrs(compacted.attrs)
    ensures out.compactedStructAttrs == Directives(compacted.attrs, originalPath)
    ensures out.fromIntoImpls.0 == if SERDE_DE in RequestedAll(compacted.attrs)
      then Some(ImplFrom(compacted, originalPath, flagFieldName, flagsName, boolFields)) else None
    ensures out.fromIntoImpls.1 == if SERDE_SER in RequestedAll(compacted.attrs)
      then Some(ImplInto(compacted, originalPath, flagFieldName, flagsName, boolFields)) else None
  {
    var attrs := compacted.attrs;
    ghost var fromImpl := ImplFrom(compacted, originalPath, flagFieldName, flagsName, boolFields);
    ghost var intoImpl := ImplInto(compacted, originalPath, flagFieldName, flagsName, boolFields);
    var shouldImpl: DerivedTraits := Empty;
    var serdeFrom: Option<Conversion> := None;
    var serdeInto: Option<Conversion> := None;
    var newAttrs: seq<Attr> := [];
    var compactedAttrs: seq<Attr> := [];
    var i := 0;
    while i < |attrs|
      invariant 0 <= i <= |attrs|
      invariant shouldImpl == RequestedAll(attrs[..i])
      invariant newAttrs == RewriteAttrs(attrs[..i])
      invariant compactedAttrs == Directives(attrs[..i], originalPath)
      invariant serdeFrom == if SERDE_DE in shouldImpl then Some(fromImpl) else None
      invariant serdeInto == if SERDE_SER in shouldImpl then Some(intoImpl) else None
    {
      var attr := attrs[i];
      StepRewrite(attrs, i);
      if attr.DeriveAttr? {
        StepDerive(attrs, i, originalPath);
        shouldImpl, serdeFrom, serdeInto, newAttrs, compactedAttrs :=
          HijackDerive(compacted, flagFieldName, originalPath, flagsName, boolFields, attr.paths,
                       shouldImpl, serdeFrom, serdeInto, newAttrs, compactedAttrs);
      } else {
        StepOther(attrs, i, originalPath);
        newAttrs := newAttrs + [attr];
      }
      i := i + 1;
    }
    assert attrs[..i] == attrs;
    out := HijackOutput(compactedAttrs, newAttrs, (serdeFrom, serdeInto));
  }
}
