# bool_to_bitflags, modelled in Dafny

`#[bool_to_bitflags]` is a Rust attribute macro. It turns a struct with named fields into:

- a compacted struct, where every `bool` and `Option<bool>` field is replaced by one bit set
  field, `__generated_flags`;
- a `bitflags` type `<Name>Flags` with one constant per bit;
- a getter/setter pair per packed field;
- a flat twin `<Name>Original`, a clone of the struct as written;
- `From`/`Into` conversions between the twin and the compacted struct;
- the serde `from`/`into` directives that route serialization through the twin.

This project models that transformation over abstract records (`Ast`) instead of token
streams. It also models the run-time behaviour of the code the macro emits: the conversion
bodies and the accessors (`Values`, `Bitflags`). The modules follow the source files:

- `Classify` and `Layout`: src/impl.rs, its field classification, bit assignment, width
  choice and flag constants.
- `DeriveHijack`: src/derive_hijack.rs.
- `FromInto`: src/impl_from_into.rs.
- `GetSet`: src/impl_get_set.rs, with the in-place setters as the class
  `CompactedRecord`.
- `Expand`: `bool_to_bitflags_impl`, the orchestration.
- `Scenarios`: the structs and assertions of the repository's tests/, restated as lemmas
  about the model.

Flags are a `set<nat>` of the bit indices that are on.

The source files mix revisions. The model follows the one where `Option<bool>` is
packable (impl_from_into.rs uses `BoolField` with a presence, or tag, bit). The shown
files do not settle how that revision classifies `Option<bool>` or numbers and counts
presence bits: src/impl.rs:46-58 classifies by the first path segment only, and
src/impl.rs:96-99 sizes the type and numbers the constants over `bool_fields.len()`,
while src/impl_from_into.rs:47 only names `tag_bit_flag_ident()`. The following are
therefore the model's choices:

- a field is packed when its type's first path segment is `bool`, or when it is
  `Option<T>` with one generic argument that is such a type;
- packed field i gets value bit i, cfg-disabled fields included (this part is
  src/impl.rs:97);
- each `Option<bool>` field also gets a presence bit, numbered after all value bits in
  field order;
- the width and the constants count both kinds of bit.

The names are `<Name>Flags` and `<Name>Original`, as in src/impl.rs:130,134, not the
`Generated` names that tests/serde.rs and src/lib.rs:8 use. The model also follows the code
in forwarding to the flags type every derive except serde's `Serialize`/`Deserialize`
(src/derive_hijack.rs:38-60), and in failing on a struct without named fields with the
`Custom` message of src/impl.rs:62-67.

Attributes are abstract: `doc`, `cfg` and `derive` attributes are always represented by
their own constructors, and `OtherAttr` stands only for the remaining ones.

Three behaviours of the code are not what the crate evidently intends. serde rejects a
duplicate `from`/`into` directive, which src/derive_hijack.rs:111-118 can emit; src/lib.rs:15
documents `private_getters` as making getters crate-private, which src/impl_get_set.rs:39
ignores; and src/impl.rs:98 computes the constants as `i32`. Each is modelled as written
and corrected (see "## Findings"); the orchestration `Expand.BoolToBitflagsImpl` uses the
corrected rules (see "## Left out").

## Model

| member | source | states |
|---|---|---|
| Classify.ExtractBoolFields | src/impl.rs:46-78 | fails with the named-fields-only error exactly when the struct has no named fields; otherwise returns the pass-through fields in order followed by the flag field, and the packable fields in declaration order |
| Classify.ClassificationPartition | src/impl.rs:52-57 | every field lands in exactly one of the packed and pass-through lists (as multisets, and by count) |
| Classify.ExtractCfgs | src/impl_from_into.rs:24 | keeps exactly the `#[cfg]` attributes, and a field is compiled in under the same conditions with them alone |
| Classify.AssignBits | src/impl.rs:97-104 | one entry per packed field, in order: field i gets value bit i, and a presence bit exactly when it is an `Option<bool>` |
| Classify.AssignBitsWellLaidOut | src/impl_from_into.rs:44-59 | all value and presence bits are pairwise distinct and below the bit demand (value bits plus presence bits) |
| Classify.KindOf | src/impl.rs:46-59 | a field is a plain bool exactly when its type's first segment is `bool`, an optional bool exactly when it is `Option<bool>`, and passed through otherwise; the kinds never overlap |
| Classify.TagBitInRange | src/impl_from_into.rs:47 | the presence bit `AssignBits` gives an optional field exists and lies in [number of fields, demand), past every value bit |
| Classify.TagBitsIncrease | src/impl_from_into.rs:47 | when fields i < j are both optional, field i's presence bit from `AssignBits` is below field j's |
| Layout.GetFlagSize | src/impl.rs:80-89 | succeeds exactly for at most 128 flags, panicking with the count otherwise; the chosen width holds the flags and is the narrowest of u8..u128 that does |
| Layout.WidthExamples | src/impl.rs:80-88 | 17 flags give u32 (tests/many.rs), 2 give u8 (tests/basic.rs), 129 fail |
| Layout.FlagValues | src/impl.rs:97-99 | the corrected constants: one per bit, bit i's is 2^i, strictly increasing in i |
| Layout.FlagValueAsWritten | src/impl.rs:97-99 | the `i32` value of `1 << i`: defined exactly for i below 32 |
| Layout.FlagValuesDistinctAndFit | src/impl.rs:97-99 | the constants `1 << i` of bits 0..n-1 are pairwise distinct and lie in [1, 2^width) for any width holding n flags |
| Layout.GenerateBitflagsType | src/impl.rs:91-121 | fails exactly when the demand exceeds 128; otherwise names the type, forwards the given derives, has the width `get_flag_size` chooses for the demand, and has one constant per demanded bit within that width, bit i's being 2^i |
| Layout.LaidOutFieldsFitFlagsType | src/impl.rs:96-104 | every bit a packed field uses names a constant of the generated type, and those constants are distinct and fit the width |
| Layout.FlagValueAsWrittenBreaksWideLayouts | src/impl.rs:97-99 | as written, with 32 flags the constant of bit 31 is negative, and with 33 flags computing bit 32 overflows |
| Bitflags.Set | src/impl_get_set.rs:62 | `flags.set(flag, v)` leaves the flag on exactly when v holds and moves no other bit |
| Bitflags.Insert | src/impl_from_into.rs:57 | `flags.insert(flag)` turns the flag on and moves no other bit |
| Bitflags.Pow2Injective | src/impl.rs:98 | distinct shift amounts give distinct constants |
| Bitflags.Pow2StrictlyIncreasing | src/impl.rs:98 | larger shift amounts give larger constants |
| DeriveHijack.FilterDerives | src/derive_hijack.rs:38-60 | a derive path survives exactly when it has a segment and is not serde's `Serialize` or `Deserialize`; a bare `serde` or any other `serde::X` survives |
| DeriveHijack.Requested | src/derive_hijack.rs:49-56 | a derive list requests only the two serde capabilities |
| DeriveHijack.RequestedSpec | src/derive_hijack.rs:49-56 | `SERDE_SER` is requested exactly when the list names `serde::Serialize`, `SERDE_DE` exactly when it names `serde::Deserialize` |
| DeriveHijack.SetCustomImpls | src/derive_hijack.rs:25-75 | returns the filtered derive, adds what the list requests to `should_impl` without removing anything, and returns the `from` conversion exactly when `SERDE_DE` is set and the `into` conversion exactly when `SERDE_SER` is set |
| DeriveHijack.RewriteAttrs | src/derive_hijack.rs:97-124 | one forwarded attribute per struct attribute, at the same position: each derive replaced by its filtered list, every other attribute unchanged |
| DeriveHijack.RequestedAll | src/derive_hijack.rs:97-109 | the capabilities requested over a struct's attributes are among the two serde ones |
| DeriveHijack.RequestedAllSpec | src/derive_hijack.rs:97-109 | a capability is requested exactly when one of the struct's derive attributes requests it |
| DeriveHijack.RequestedAllGrows | src/derive_hijack.rs:90-105 | the requested set only grows as the attributes are walked |
| DeriveHijack.DirectivesAsWritten | src/derive_hijack.rs:111-118 | the directives pushed as written: only `from`/`into` directives, at most two per attribute |
| DeriveHijack.Directives | src/derive_hijack.rs:111-118 | the corrected directives: only `from`/`into` directives, each only when its capability is requested |
| DeriveHijack.SerdeDirectivesDiffer | src/derive_hijack.rs:111-118 | the `from` and `into` directives are different attributes |
| DeriveHijack.DirectivesExactlyOnce | src/derive_hijack.rs:111-118 | the corrected directives contain `#[serde(from = ..)]` once when deserialization is requested and never otherwise, the same for `into`, and nothing else |
| DeriveHijack.DuplicateDirectiveAsWritten | src/derive_hijack.rs:111-118 | as written, `#[derive(serde::Deserialize)] #[derive(Debug)]` emits the `from` directive twice, the corrected rule once |
| DeriveHijack.StepRewrite | src/derive_hijack.rs:109-123 | each loop step appends exactly the rewritten attribute |
| DeriveHijack.StepOther | src/derive_hijack.rs:123 | a non-derive attribute requests nothing and adds no directive |
| DeriveHijack.StepDerive | src/derive_hijack.rs:98-118 | a derive attribute adds what its list requests, and the directives for it (all requested so far as written, only the new ones corrected) |
| DeriveHijack.HijackDeriveAsWritten | src/derive_hijack.rs:98-118 | the derive branch as written: state after `set_custom_impls`, with one directive pushed per conversion it returned |
| DeriveHijack.HijackDerive | src/derive_hijack.rs:98-118 | the derive branch with a directive pushed only for a capability not requested before |
| DeriveHijack.HijackDerivesAsWritten | src/derive_hijack.rs:83-131 | as written: forwarded attributes are the rewritten ones, directives are the cumulative ones, and each conversion is present exactly when its capability is requested by some derive |
| DeriveHijack.HijackDerives | src/derive_hijack.rs:83-131 | the corrected loop: the same forwarded attributes and conversions, with each directive emitted once |
| FromInto.ExtractPassthroughFields | src/impl_from_into.rs:18-27 | never yields the flag field and yields at most one entry per field |
| FromInto.PassthroughOfCompacted | src/impl_from_into.rs:18-27 | on a compacted field list, the pass-through fields are exactly the struct's pass-through fields, in order, with their own cfgs |
| FromInto.ImplFrom | src/impl_from_into.rs:29-77 | the `From<Original>` conversion: its direction, names and packed fields, with pass-through fields that never include the flag field |
| FromInto.ImplInto | src/impl_from_into.rs:79-111 | the `Into<Original>` conversion, with the same fields in the other direction |
| FromInto.CopyFields | src/impl_from_into.rs:40-41 | copies verbatim exactly the pass-through fields that are compiled in and present |
| FromInto.BoolPart | src/impl_from_into.rs:93-99 | rebuilds exactly the packed fields that are compiled in |
| FromInto.RunInto | src/impl_from_into.rs:101-110 | the flat value has the compiled-in packed fields plus the compiled-in pass-through fields |
| FromInto.FlagUpdate | src/impl_from_into.rs:43-61 | one statement of the `from` body: a field compiled out changes nothing, and no statement moves another field's bits |
| FromInto.FoldFlags | src/impl_from_into.rs:63-73 | the `from` body's fold over the packed fields leaves every bit no field uses as it found it |
| FromInto.RunFrom | src/impl_from_into.rs:63-77 | the emitted `from`: copies exactly the compiled-in pass-through fields verbatim, and turns on no bit outside the packed fields' bits |
| FromInto.UpdateFrame | src/impl_from_into.rs:43-61 | one statement of `from` moves only its own field's bits |
| FromInto.UpdateDecodes | src/impl_from_into.rs:47-59 | after its statement, a field compiled in reads back through the getter body as its flat value, all three `Option<bool>` states included |
| FromInto.FoldFrame | src/impl_from_into.rs:68-72 | the fold leaves alone every bit no field in it uses |
| FromInto.FoldDecodes | src/impl_from_into.rs:68-72 | after the whole fold, every field compiled in reads back as its flat value |
| FromInto.FoldReadsBack | src/impl_from_into.rs:63-73 | the same for all fields at once, starting from `empty()` |
| FromInto.BoolPartRestores | src/impl_from_into.rs:93-99 | when every field reads back, the bool part of `into` equals the flat value's packed fields |
| FromInto.RoundTrip | src/impl_from_into.rs:29-110 | converting a legal flat value with `from` and back with `into` gives it back unchanged |
| GetSet.ExtractDocs | src/impl_get_set.rs:7-10 | keeps exactly the `doc` attributes |
| GetSet.ArgsToNames | src/impl_get_set.rs:12-21 | getter name is the getter prefix (default empty) then the field name; setter name is the setter prefix (default `set_`) then the field name |
| GetSet.AccessorNamesInjective | src/impl_get_set.rs:12-21 | under one configuration, distinct fields get distinct getter and distinct setter names |
| GetSet.ConfiguredNamesExample | src/impl_get_set.rs:12-21 | `getter_prefix = "get_"` gives `get_bool_1`/`set_bool_1` (tests/configuration.rs); defaults give `is_cool`/`set_is_cool` |
| GetSet.PrivateGettersIgnoredAsWritten | src/impl_get_set.rs:39 | as written, a `pub` field keeps a `pub` getter with `private_getters`; the corrected rule makes it private |
| GetSet.AccessorFor | src/impl_get_set.rs:36-52 | names from the prefixes; setter private under `private_setters`, otherwise the field's visibility; the field's docs go to the setter under `document_setters` (getter undocumented), otherwise to the getter (setter gets the one-line description) |
| GetSet.GenerateGettersSetters | src/impl_get_set.rs:23-72 | exactly one accessor pair per packed field, in field order |
| GetSet.GetterVisAsWritten | src/impl_get_set.rs:39 | the getter's visibility as written: the field's own, whatever the arguments |
| GetSet.GetterVis | src/impl_get_set.rs:39 | the corrected getter visibility: private under `private_getters`, the field's own otherwise |
| GetSet.SetterVis | src/impl_get_set.rs:40-44 | the setter is private under `private_setters`, otherwise it has the field's visibility |
| GetSet.GetterValue | src/impl_get_set.rs:55-58 | the getter body returns a value of the field's kind, reading true exactly when the value bit (and the presence bit of an optional) is on |
| GetSet.SetterFlags | src/impl_get_set.rs:60-63 | the setter body moves no bit outside its field's bits |
| GetSet.GetterValueLocal | src/impl_get_set.rs:55-58 | a getter reads only its own field's bits |
| GetSet.GetAfterSet | src/impl_get_set.rs:55-63 | the getter returns what the setter stored, for bools and all three `Option<bool>` states |
| GetSet.SetLeavesOthers | src/impl_get_set.rs:60-63 | a setter leaves every field with disjoint bits reading as before |
| GetSet.DefaultReadsFalseOrNone | src/impl_get_set.rs:55-58 | on the empty flag set a bool reads `false` and an `Option<bool>` reads `None` |
| GetSet.CompactedRecord.constructor | tests/basic.rs:17 | a default compacted value starts with no flag on |
| GetSet.CompactedRecord.SetBool | src/impl_get_set.rs:60-63 | the in-place setter stores the value, reads it back, and every field with disjoint bits reads as before |
| GetSet.CompactedRecord.SetOptBool | tests/opt_bool.rs:13-17 | the same for an `Option<bool>` field |
| GetSet.WithValue | tests/many.rs:25-28 | an owning setter keeps the pass-through fields, stores the value through the setter body, reads it back, and leaves every field with disjoint bits reading as before |
| Expand.BoolToBitflagsImpl | src/impl.rs:123-182 | fails exactly for a struct without named fields or with more than 128 bits; otherwise emits the renamed twin, the compacted struct, the conversions over the assigned bits, the flags type and the accessors, each as its component specifies, using the corrected directive, getter-visibility and constant rules of "## Findings" |
| Expand.FlagField | src/impl.rs:27-44 | the flag field: named `__generated_flags`, `pub(crate)`, without attributes, typed by the flags name, and itself passed through unless that name is `bool` |
| Expand.Compacted | src/impl.rs:137-139 | the compacted struct keeps the attributes, visibility and name, loses exactly the packed fields, and ends with the flag field after pass-through fields of the input |
| Expand.Original | src/impl.rs:133-135 | the flat twin has the same fields and visibility, a name that differs from the struct's, and the `allow` attribute in front |
| Expand.TwinsPartitionFields | src/impl.rs:133-139 | the twin keeps every field under a different name; the compacted struct keeps the pass-through fields and ends with the flag field; the packed fields are exactly what it lost |
| Expand.EnabledBoolIdentsOf | src/impl_from_into.rs:93-99 | the names rebuilt by `into` are the compiled-in packed field names |
| Expand.EnabledPassIdentsOf | src/impl_from_into.rs:40-41 | the names copied are the compiled-in pass-through field names |
| Expand.FlatKeysSplit | src/impl.rs:138-160 | a legal flat value's names split into the packed and pass-through names of the conversions |
| Expand.FlatNamesDisjoint | src/impl.rs:138-160 | those two name sets are disjoint |
| Expand.FlatValueTyped | src/impl.rs:138-160 | every packed field of a legal flat value holds a value of its kind |
| Expand.ExpansionFits | src/impl.rs:146-160 | the emitted conversions use distinct bits and accept every legal flat value |
| Expand.ExpansionRoundTrip | src/impl.rs:146-160 | end to end: for every accepted struct, `into(from(v)) == v` for every legal flat value |
| Scenarios.HumanClassify | tests/basic.rs:3-8 | `age` is passed through, the two bools are packed |
| Scenarios.HumanBits | tests/basic.rs:3-8 | the two bools fit one byte on bits 0 and 1 |
| Scenarios.HumanSetters | tests/basic.rs:15-21 | default `is_cool()` is false; after `set_is_cool(true)` it is true and `is_epic` is still false |
| Scenarios.ManyLayout | tests/many.rs:3-21 | seventeen bools are all packed, need a u32, and field i gets bit i |
| Scenarios.ManyOwningSetters | tests/many.rs:23-34 | owning setters for bools 1, 9 and 17 read back true, and bool 16 stays false |
| Scenarios.OptionalBoolClassify | tests/opt_bool.rs:3-6 | both fields are packed |
| Scenarios.OptionalBoolBits | tests/opt_bool.rs:3-6 | value bits 0 and 1, presence bit 2, one byte |
| Scenarios.OptionalBoolSetters | tests/opt_bool.rs:8-17 | `None` by default, then `Some(false)`, then `Some(true)`; `normal` stays false |
| Scenarios.SerdeBothDirections | tests/serde.rs:1-6 | both serde derives are hijacked: one `from` and one `into` directive |
| Scenarios.SerdeTestFlagsDerives | tests/serde.rs:2 | the flags type keeps `Debug, PartialEq, Clone`, in order |
| Scenarios.SerdeDeserializeOnly | tests/serde.rs:18-23 | only the `from` directive is emitted, and `#[serde(remote = "Self")]` is forwarded unchanged |
| Scenarios.GuardedClassify | tests/guarded_flag.rs:3-10 | the two `u8` fields pass through and the two bools are packed, whatever their cfgs |
| Scenarios.GuardedLayout | tests/guarded_flag.rs:7-9 | the disabled flag still takes bit 0; the enabled one gets bit 1 |
| Scenarios.GuardedPassthrough | tests/guarded_flag.rs:3-6 | both pass-through fields stay in the conversions, each with its own cfg |
| Scenarios.GuardedConversion | tests/guarded_flag.rs:1-10 | the emitted `into` impl, spelled out |
| Scenarios.GuardedCopy | tests/guarded_flag.rs:14-17 | with the cfg off, only the enabled field is copied |
| Scenarios.GuardedBoolPart | tests/guarded_flag.rs:19-21 | with the cfg off, only the enabled flag is read back |
| Scenarios.GuardedFlagInto | tests/guarded_flag.rs:12-29 | building the compacted value, setting `enabled_flag` and converting gives `{ enabled_field: 1, enabled_flag: true }` |

## Left out

- Token streams: `quote!`, `format_ident!`, `syn` types, spans and `path_from_ident`. Outputs are abstract records, and derive lists arrive already split into paths.
- Argument parsing (src/args.rs, `darling`): only the `Args` record and its defaults are modelled. Its `ConfigurationError`, and `MalformedAnnotation` from `parse_args_with` at src/derive_hijack.rs:106, are not modelled.
- src/strip_spans.rs, src/error.rs and src/lib.rs: span resetting, compile-error rendering and the `proc_macro` entry point carry no behaviour the model needs.
- The flag constants' names: `field_to_flag_name` is not part of this model. Flags are identified by their bit index.
- Generics (`split_for_impl`) and segment generic arguments other than `Option`'s single one.
- The `typesize` feature impl, the `dbg!` at src/derive_hijack.rs:59, the `bitflags!` macro itself and the serde runtime. Serde's `from`/`into` hooks are only the directives that name them.
- `std::mem::size_of` checks in tests/basic.rs:12 and tests/opt_bool.rs:19: they depend on Rust's layout of the whole struct.
- tests/non_copy.rs only checks that the expansion compiles.
- The conversion's path: src/derive_hijack.rs:91 formats `{original_mod_name}::{ident}`. The model passes the twin's name, as src/impl.rs:144 does.
- The call arities that differ between revisions are not modelled. `hijack_derives` is called with two arguments at src/impl.rs:144, and `impl_from`/`impl_into` are called without the original name at src/derive_hijack.rs:64,68. The model passes every argument.
- `hijack_derives`' `from_into_impls` output is modelled, but `bool_to_bitflags_impl` does not use it. It always emits both conversions (src/impl.rs:146-160).
- GetSet.CompactedRecord.SetOptBool: setting `None` clears only the presence bit and leaves the value bit as it was. The getter then reads `None` whatever that bit holds.
- Expand.BoolToBitflagsImpl: uses the corrected serde directives of `DeriveHijack.HijackDerives`, which push each directive once; as written, src/derive_hijack.rs:90,100-118 pushes `#[serde(from = ..)]` twice for `#[derive(serde::Deserialize)] #[derive(Debug)]` (see "## Findings").
- GetSet.GenerateGettersSetters: uses the corrected getter visibility of `GetSet.GetterVis`, private under `private_getters`; as written, src/impl_get_set.rs:39 always gives the field's visibility (see "## Findings").
- Layout.GenerateBitflagsType: uses the corrected constants 2^i of `Layout.FlagValues`; as written, src/impl.rs:98 computes the `i32` value `1 << i`, negative at bit 31 and overflowing from bit 32 (see "## Findings").
- Expand.BoolToBitflagsImpl: the panic on more than 128 flags is modelled as an error result. Argument parsing happens before the call and is not modelled.

## Findings

| source | as written | input that shows it | evidently intended | confidence | as-written member | corrected member |
|---|---|---|---|---|---|---|
| src/derive_hijack.rs:111-118 | after every derive attribute, a directive is pushed for each capability requested so far | `#[derive(serde::Deserialize)] #[derive(Debug)]` gives `#[serde(from = ..)]` twice, which serde rejects | push each directive once, when its capability is first requested | not executed | DeriveHijack.DuplicateDirectiveAsWritten | DeriveHijack.DirectivesExactlyOnce |
| src/impl.rs:97-99 | `1 << i` with an `i32` literal | 32 flags: bit 31's constant is -2147483648 for a `u32` type; 33 flags: `1 << 32` overflows | the unsigned constant 2^i of the chosen width | not executed | Layout.FlagValueAsWrittenBreaksWideLayouts | Layout.FlagValuesDistinctAndFit |
| src/impl_get_set.rs:39 | the getter always gets the field's visibility | `private_getters` on a `pub` field still gives a `pub` getter, against src/lib.rs:15 | a private (`Inherited`) getter under `private_getters` | not executed | GetSet.PrivateGettersIgnoredAsWritten | GetSet.AccessorFor |
