# OData v2 mock data generator — a Dafny model

`ODataMockGenerator` reads an OData v2 metadata document and fills every
entity set with mock records. This model covers that process:

- Each property value comes from one of three places, in this order:
  - a truthy value already on the record;
  - a predefined rule: an array to pick from, a `$ref:<variable>` rule, or a
    dependent rule keyed on another property;
  - a default chosen by the property's EDM type, drawn from per-type
    pseudo-random streams.
- The records of the sets listed in `distinctValues` are de-duplicated by
  their key fields.
- Referential constraints are then copied from principal records to
  dependent records.
- Finally every record gets `__metadata`, with its URI and qualified type,
  and one `__deferred` stub per navigation property.

Modules:

- `Values`: JavaScript values, their truthiness and `===`. A record is a map
  from field name to value.
- `Schema`: the parsed schema (entity types, complex types, entity sets,
  navigation ends) and the splitting of qualified type names.
- `PseudoRandom`: the linear congruential counter per stream name.
- `Formats`: the texts of the String, Time, Guid and Binary defaults, each
  with its read-back lemma.
- `Dedup`: `_removeDuplicates`, as a loop method proved against a
  specification function.
- `Rules`: options, predefined rules, variables, the skip list and the table
  of chosen values.
- `Uris`: the service root, the key predicate, and the `__metadata` and
  `__deferred` objects.
- `Generator`: the class `MockGenerator`. Its fields are the options, the
  counters, the chosen values and the generated data. Its methods are the
  generation passes.

The entity and complex types are taken as already parsed (`Schema.Model`).
The host supplies the clock, `encodeURIComponent` and the date conversion
of `_getDateTime`, as a `Values.Host` value.

## Model

| member | source | states |
|---|---|---|
| Values.NatTextRoundTrip | dist/esm/bundle.js:373 | The decimal text of an index reads back as that index. |
| Schema.LastIndexOf | dist/esm/bundle.js:188-189 | Returns the last position of the character, or -1 when it does not occur. |
| Schema.SplitPropertyType | dist/esm/bundle.js:188-189 | The type name has no dot. With a dot, schema + "." + name rebuilds the declared type. Without one, the schema is empty and the name is the whole type. |
| Schema.SplitEntityType | dist/esm/bundle.js:477 | The schema group is present exactly when the attribute has a dot, and then schema + "." + name rebuilds it. Otherwise the name is the whole attribute. |
| Schema.QualifiedTypeRoundTrip | dist/esm/bundle.js:142 | Splitting the EntityType attribute and rejoining it for `__metadata.type` gives the attribute back. Without a dot it comes back as "undefined." + name. |
| Schema.ResolvePropRef | dist/esm/bundle.js:494-510 | The first ReferentialConstraint child with the role wins. Only when none has the role is the first document-wide Principal/Dependent with the role used. Otherwise the list is empty. |
| Schema.FirstWithRole | dist/esm/bundle.js:502-508 | Returns the first index with the role, or the length when no element has it. |
| PseudoRandom.NextSeed | dist/esm/bundle.js:438 | The counter update stays in [0, 281474976710655). |
| PseudoRandom.Advance | dist/esm/bundle.js:430-440 | A draw creates an unseen stream at 0 and moves only that stream's counter: to 277363943087 on its first draw, otherwise to the next seed. Every counter stays in range. |
| PseudoRandom.AdvanceTimes | dist/esm/bundle.js:430-440 | n draws in a row from one stream move only that stream's counter, which then exists and lies in range. |
| PseudoRandom.Scaled | dist/esm/bundle.js:376-378 | `Math.floor(draw * k)` lies in [0, k) and is exactly the floor of draw * k: r * M <= seed * k < (r + 1) * M for the modulus M. |
| Formats.StringDefault | dist/esm/bundle.js:372-373 | The String default is the property name, a space and digits that read back as the index. |
| Formats.TimeRoundTrip | dist/esm/bundle.js:398-400 | A `PT<h>H<m>M<s>S` default parses back to the hours, minutes and seconds it was built from. |
| Formats.Fill | dist/esm/bundle.js:402-405 | Filling the template keeps its fixed characters. Each `x` becomes a hex digit and each `y` becomes one of 8, 9, a, b. |
| Formats.GuidFillShape | dist/esm/bundle.js:401-406 | Whatever the draws, the Guid default is 36 characters: dashes at 8, 13, 18 and 23, version 4, a variant digit in 8-b, hex digits elsewhere. |
| Formats.MaskText | dist/esm/bundle.js:407-416 | The `>>> 31` / `<<= 1` loop yields 32 characters `0`/`1`. They read back as the mask modulo 2^32, and as the mask itself in two's complement when it fits in 32 signed bits. |
| Dedup.RemoveDuplicates | dist/esm/bundle.js:246-275 | The nested loops with the `x`-string comparison compute `Unique`: a record is kept exactly when no record kept earlier is `===` on every key field. |
| Dedup.UniqueShorter | dist/esm/bundle.js:246-275 | De-duplication never adds records. |
| Dedup.UniqueIsSubsequence | dist/esm/bundle.js:267-269 | The survivors are input records at strictly increasing positions. |
| Dedup.UniqueDistinct | dist/esm/bundle.js:252-265 | No two survivors match on all key fields. |
| Dedup.UniquePrefix | dist/esm/bundle.js:251-272 | The survivors of a prefix of the input are a prefix of the survivors. |
| Dedup.UniqueCovers | dist/esm/bundle.js:261-269 | Each input record is either appended right after the earlier survivors (matching none of them) or dropped (matching one). |
| Dedup.UniqueOfDistinct | dist/esm/bundle.js:246-275 | A list with no matching pair is returned unchanged. |
| Dedup.UniqueIdempotent | dist/esm/bundle.js:246-275 | De-duplicating twice gives the same result as de-duplicating once. |
| Dedup.UniqueNoKeys | dist/esm/bundle.js:248 | With no key fields every record matches, so only the first record survives. |
| Rules.PrepareMetadata | dist/esm/bundle.js:96-101 | The constructor gets a model exactly when the metadata is non-empty and parses, and then it is the parsed model. Empty metadata is exactly the `MetadataNotProvided` error; any other failure is `Metadata parsing error: <parser message>`. |
| Rules.NumberOfEntities | dist/esm/bundle.js:59 | The stored count is never the falsy 0: an absent count becomes 30 and any other count is kept. |
| Rules.RuleFor | dist/esm/bundle.js:299-300 | A rule applies exactly when the owner and property are configured with anything but the empty string, the only falsy configuration; it is then the configured rule. |
| Rules.IndexOf | dist/esm/bundle.js:319 | Returns the first occurrence of the character, or -1 when it does not occur. |
| Rules.VariableName | dist/esm/bundle.js:319 | `split(":")[1]`: the text after the first colon up to the next colon or the end. It is "undefined" when there is no colon. |
| Rules.FirstMatchingEntry | dist/esm/bundle.js:342-346 | Returns the first entry whose key is truthy and `===` the referenced value, with no earlier entry matching. It is the length when none matches. |
| Rules.FirstPropertyNamed | dist/esm/bundle.js:351-352 | Returns the first property with the referenced name, or the length when none has it. |
| Rules.NonSkipped | dist/esm/bundle.js:81-88 | A set stays exactly when it is not named in the skip list. A set named "" is never deleted, because the `find` result is falsy. |
| Rules.NonSkippedKeepsOrder | dist/esm/bundle.js:81-88 | Skipping keeps the document order of the remaining sets. |
| Rules.NonSkippedDistinct | dist/esm/bundle.js:86 | Deleting sets keeps set names unique. |
| Rules.EnsureChosen | dist/esm/bundle.js:302-308 | The owner/property list is created as `[]` only where it was missing. Every other entry is unchanged. |
| Rules.AppendChosen | dist/esm/bundle.js:316 | The value is pushed onto exactly that list. Every other list is unchanged. |
| Rules.Pick | dist/esm/bundle.js:315 | The random pick returns an element of a non-empty array, and `undefined` for an empty one. |
| Uris.WithTrailingSlash | dist/esm/bundle.js:62-64 | The stored root ends with `/`: it is unchanged when it already did, and gets `/` appended otherwise. |
| Uris.StripQueryAndFragment | dist/esm/bundle.js:551 | Returns the longest prefix without `?` or `#`. The character that stops it is `?` or `#`. |
| Uris.RootUriAsWritten | dist/esm/bundle.js:549-553 | `_getRootUri` as written: the stored root cut at its first `?` or `#`. See Findings. |
| Uris.RootUriAsWrittenLosesSlash | dist/esm/bundle.js:549-553 | The root `http://host/service?sap-client=100` gives `http://host/serviceProducts(1)` as written, and `http://host/service/Products(1)` corrected. |
| Uris.RootWithQuery | dist/esm/bundle.js:60-64 | For any root with a query part, as written, the slash appended by the constructor is cut off with the query. |
| Uris.RootUri | dist/esm/bundle.js:549-553 | The corrected root: it ends in `/`, has no `?` or `#`, and extends the cut root. |
| Uris.RootUriAgrees | dist/esm/bundle.js:549-553 | Without a query or fragment, the corrected and as-written roots coincide and equal the stored root. |
| Uris.Segments | dist/esm/bundle.js:463 | Each composite-key segment is `key=value`, with the value formatted by the key's EDM type. |
| Uris.CreateKeysString | dist/esm/bundle.js:442-467 | The loop builds exactly `KeyPredicate`: a single key gives the bare value, several keys give the segments joined by commas. |
| Uris.SingleKeyPredicate | dist/esm/bundle.js:450-461 | A single key is written without `name=`, by its declared type name: Edm.String quoted and encoded, Edm.DateTime as an encoded date literal (`undefined` for a falsy value), Edm.Guid as `guid'<value>'`, any other or undeclared type as plain text. |
| Uris.JoinSplit | dist/esm/bundle.js:447-448 | Splitting a comma-joined list of comma-free parts at its commas gives the parts back. |
| Uris.CompositeKeyRoundTrip | dist/esm/bundle.js:442-467 | When keys and values contain no comma, a composite key predicate splits back into its `key=value` segments. |
| Uris.DecorateEntry | dist/esm/bundle.js:138-151 | Decorating one record yields `Decorated`: `__metadata` first, then the navigation stubs in order. |
| Uris.AttachMetadataObject | dist/esm/bundle.js:140-143 | The record gains `__metadata` holding the entity URI built from its current key predicate and the qualified type. |
| Uris.AttachStub | dist/esm/bundle.js:146-150 | One navigation field is set to a `__deferred` stub whose URI uses the key predicate of the record as it is at that moment. |
| Uris.AttachStubs | dist/esm/bundle.js:145-151 | The loop attaches the stubs of all navigation properties, in declared order. |
| Uris.KeyPredicateReadsKeys | dist/esm/bundle.js:450 | The key predicate depends only on the key fields of the record. |
| Uris.WithNavigationsKeys | dist/esm/bundle.js:145-150 | The navigation pass adds exactly one field per navigation name. |
| Uris.WithNavigationsKeepsFields | dist/esm/bundle.js:145-150 | Every field that is not a navigation name keeps its value through the navigation pass. |
| Uris.WithNavigationsKeyPredicate | dist/esm/bundle.js:148 | When no navigation is named like a key, the stubs leave the key predicate unchanged, so later stubs see the same key. |
| Uris.WithNavigationsStubs | dist/esm/bundle.js:145-150 | With distinct navigation names, each navigation field holds `{__deferred: {uri: <entity URI>/<name>}}`, where the entity URI is that of the record before any stub. |
| Uris.StubAt | dist/esm/bundle.js:145-150 | The stub of the n-th navigation survives the later ones and points below the record's entity URI. |
| Uris.MetadataKeepsKeyPredicate | dist/esm/bundle.js:140-148 | Adding `__metadata` leaves the key predicate unchanged when no key is called `__metadata`. |
| Uris.DecoratedKeys | dist/esm/bundle.js:139-150 | A decorated record has its old fields plus `__metadata` plus the navigation names. |
| Uris.DecoratedStubs | dist/esm/bundle.js:145-150 | Each stub of a decorated record points below the same entity URI as its `__metadata`. |
| Uris.DecoratedKeepsFields | dist/esm/bundle.js:138-150 | A decorated record holds `__metadata` with the entity URI and qualified type, and keeps every field no navigation overwrites. |
| Uris.DecoratedShape | dist/esm/bundle.js:140-150 | `__metadata` holds `uri` = root + set + `(` key predicate `)` and `type` = schema + "." + type. Each navigation stub points below that URI, and all other fields are kept. |
| Generator.StreamOf | dist/esm/bundle.js:382-385 | The stream is "Int" exactly for Int16, Int32 and Int64 (and a type named Int); every other type draws from the stream named after it. |
| Generator.SharedStream | dist/esm/bundle.js:382-385 | Two types share a stream exactly when they are the same type or both integer types, so a draw for one type never moves another type's stream. |
| Generator.RecordsPerSet | dist/esm/bundle.js:235 | With `numberOfEntitiesToGenerate` absent a set draws 30 records, with a positive count exactly that many, and with a negative count none. |
| Generator.GuidFill | dist/esm/bundle.js:402-405 | What the `replace` callback draws: each placeholder, in order, advances the "Guid" stream once and takes floor(draw * 16), a digit in [0, 16); other characters draw nothing. |
| Generator.GuidFillCounter | dist/esm/bundle.js:402-405 | Filling a template advances the "Guid" stream exactly once per placeholder, and no other stream. |
| Generator.PlaceholderCountPositive | dist/esm/bundle.js:402-405 | A template draws at all exactly when it has an `x` or `y`. |
| Generator.SingleDrawShape | dist/esm/bundle.js:382-397 | The single-draw defaults lie in their ranges: Int [0, 10000); Byte/SByte [0, 10); Decimal hundredths below 10000; Double below 10; Single below 10^9; Boolean a bool. |
| Generator.TimeShapeParses | dist/esm/bundle.js:398-400 | A Time default parses back with hours < 23, minutes < 59 and seconds < 59. |
| Generator.SetField | dist/esm/bundle.js:127-129 | One assignment to a record's field changes that field only. Every set keeps its length, and every other record is unchanged. |
| Generator.MockGenerator.constructor | dist/esm/bundle.js:46-70 | Stores the options. The entity count falls back to 30 and the root ends in `/`. Counters, chosen values and data start empty. |
| Generator.MockGenerator.GetPseudoRandomNumber | dist/esm/bundle.js:430-440 | The counters become `Advance(old, type)`, and the draw is the new counter over the modulus. |
| Generator.MockGenerator.Draw | dist/esm/bundle.js:376-378 | One draw scaled to [0, k), advancing that stream. |
| Generator.MockGenerator.FillTemplate | dist/esm/bundle.js:402-405 | The loop's counters and digits are exactly `GuidFill` of the old counters: one "Guid" draw per placeholder, in order, each digit the floor of its draw times 16. The text is the template filled with those digits; only the "Guid" stream moves, and it moves exactly when the template has a placeholder. |
| Generator.MockGenerator.FillChar | dist/esm/bundle.js:402-405 | A placeholder advances the "Guid" stream once and is replaced by the hex digit floor(draw * 16) (`y` restricted to 8-b); any other character stays and draws nothing. |
| Generator.MockGenerator.GuidDefault | dist/esm/bundle.js:401-406 | The Guid default is the template filled from `GuidFill` of the old counters, with the new counters those `GuidFill` leaves. It has the version-4 shape, and only the "Guid" stream moves. |
| Generator.MockGenerator.ResolveIndex | dist/esm/bundle.js:365-369 | Index 0 becomes 101 + floor(draw * 10000) for one draw that advances the "String" stream, so it lies in [101, 10101). A non-zero index is kept and draws nothing. |
| Generator.MockGenerator.DateDefault | dist/esm/bundle.js:374-381 | Three draws in a row from the type's stream, scaled to 20, 30 and 12, set the year (2000 + first), the day and the month of the host clock's time (`DateFromDraws`). The counters are the old ones advanced three times on that stream. The suffix is `)/` or `+0000)/`. |
| Generator.MockGenerator.TimeDefault | dist/esm/bundle.js:398-400 | Three draws in a row from "Time", scaled to 23, 59 and 59, give the hours, minutes and seconds of `PT<h>H<m>M<s>S`, so h < 23, m < 59 and s < 59. The counters are the old ones advanced three times on "Time"; no other stream moves. |
| Generator.MockGenerator.BinaryDefault | dist/esm/bundle.js:407-416 | One draw from "Binary" gives the mask -2^31 + floor(draw * 4294967295). The 32 bits read back as exactly that mask, which lies in [-2^31, 2^31 - 1). |
| Generator.MockGenerator.PrimitiveDefault | dist/esm/bundle.js:371-424 | Each primitive type gets its default shape. String takes no draw. Int, Decimal, Boolean, Byte/SByte, Double and Single are fixed by their advanced stream. Binary's bits read back as the mask from its one draw. DateTime and DateTimeOffset are `DateFromDraws` of the old counters. Time and Guid move only their own stream. |
| Generator.MockGenerator.TextDefault | dist/esm/bundle.js:374-416 | The text defaults: DateTime/DateTimeOffset exactly from three draws, Binary exactly from one, Time and Guid with their shapes; each moves only its own stream. |
| Generator.MockGenerator.SingleDrawDefault | dist/esm/bundle.js:382-397 | Int, Decimal, Boolean, Byte/SByte, Double and Single take one draw from their stream and are fixed by the advanced counter. |
| Generator.MockGenerator.PrimitiveValue | dist/esm/bundle.js:364-424 | A primitive default with the index resolved first: String gives `name index` (a drawn index in [101, 10101) for index 0, no draw otherwise); the other types have their shape and move their own stream as PrimitiveDefault states. |
| Generator.MockGenerator.DefaultValue | dist/esm/bundle.js:364-427 | The type default has the type's shape. A type that is neither primitive nor complex gives `{}`. A complex type gives an object with exactly its property names. String gives `name index`, with a drawn index when the index is 0. |
| Generator.MockGenerator.PickAndRecord | dist/esm/bundle.js:313-317 | The value is picked from the array and appended to the owner/property's chosen values. |
| Generator.MockGenerator.DependentRule | dist/esm/bundle.js:336-360 | A set reference returns the first matching entry's value (or "missing value") and draws nothing. An unset declared reference is generated first and stored before the property is generated again. Otherwise the rule gives no value. |
| Generator.MockGenerator.RuleValue | dist/esm/bundle.js:313-361 | A rule yields a value exactly when it does not fall through to the type default. An array is picked from and recorded; a `$ref` to a missing or falsy variable is an error; a list variable is picked from and recorded; a scalar variable is returned unrecorded; a dependent rule returns the matching entry or generates its reference first. |
| Generator.MockGenerator.GenerateUnset | dist/esm/bundle.js:299-427 | For a property not yet set: the rule's value when a rule applies, otherwise the type default, with the same cases as GeneratePropertyValue. |
| Generator.MockGenerator.GeneratePropertyValue | dist/esm/bundle.js:292-428 | Applies the precedence: reuse a truthy value; array rule (pick and record); `$ref` (missing variable is an error, list picked and recorded, scalar verbatim); dependent rule; then the type default with its shape and draws. The record only gains declared properties. |
| Generator.MockGenerator.GenerateDataFromEntity | dist/esm/bundle.js:277-290 | No type gives `{}` without drawing. Otherwise the record has exactly the type's property names, and every plain String property holds `name index`. |
| Generator.MockGenerator.GenerateEntries | dist/esm/bundle.js:235-237 | The loop makes `count` records with indices 1, 2, ... in order, each with the type's fields and its String defaults. A missing type gives `{}` records and cannot fail. |
| Generator.MockGenerator.GenerateDataFromEntitySet | dist/esm/bundle.js:231-244 | Draws `numberOfEntities` records with indices 1, 2, ... in order, each with the type's fields and String defaults. A set not listed as distinct keeps all of them. A distinct set keeps exactly `Unique` of them by the type's keys, so no two match on those keys. A distinct set without an entity type is an error. |
| Generator.MockGenerator.LinkEntry | dist/esm/bundle.js:124-130 | With a predefined rule, the source record's field takes one of the chosen values, and a missing table is an error. Without one, the target set's record at the same index copies the source field, and a missing target is an error. Nothing else changes. |
| Generator.MockGenerator.LinkReferences | dist/esm/bundle.js:115-134 | Linking keeps every set name and every record count. |
| Generator.MockGenerator.DecorateSet | dist/esm/bundle.js:138-152 | Every record of the set is `Decorated`, in order. |
| Generator.MockGenerator.AttachMetadata | dist/esm/bundle.js:137-153 | Every record of every listed set is decorated; other sets are untouched. |
| Generator.MockGenerator.GenerateSets | dist/esm/bundle.js:108-112 | Returns one entry per listed set. Each entry holds what generating that set keeps (`SetRecords`): the drawn records, or their `Unique` for a distinct set. So a set has `numberOfEntities` records, or at most that many when distinct. |
| Generator.MockGenerator.CreateMockData | dist/esm/bundle.js:76-94 | Produces the non-skipped sets with their record counts, each record carrying `__metadata`. The result is stored in `mockData` on success; on error `mockData` is unchanged. |

## Left out

- Reading the metadata XML (`_findEntityTypes`, `_findComplexTypes`, `_findEntitySets`, and jQuery selection) is not modelled. The model starts from the parsed `Schema.Model`. Of that code, only the type-name splits and the choice of property references per role are modelled.
- `jQuery.parseXML` is the `parse` parameter of `Rules.PrepareMetadata`.
- `encodeURIComponent`, `new Date()` with its setters, and `_getDateTime`'s `toJSON` conversion come from the host (`Values.Host`). Their results are not modelled.
- `Math.random` is a nondeterministic choice. Contracts state only that the pick is an element of its array.
- Floating point is not modelled. Draws are exact rationals (counter / 281474976710655), and `Math.floor(draw * k)` is computed exactly on integers. The source's counter products exceed 2^53 and are rounded as doubles, so its concrete sequence of values can differ from the exact one. Decimal, Double and Single values are exact fractions, and a non-integral fraction renders as `num/den` instead of JavaScript's decimal text.
- Recursion through dependent rules and complex types is bounded by `GenerationFuel` (100). The model returns `RecursionTooDeep` where the bound is reached:
  - cyclic rules or complex types, where the source recurses until the stack overflows;
  - a dependent rule whose reference is generated falsy (`false`, `0`, `""`), which the source regenerates on every retry until the stack overflows;
  - acyclic complex-type or dependent-rule nesting deeper than 100 levels, which the source completes.
- Exceptions become `Rules.Error` results:
  - a missing `$ref` variable;
  - a distinct set without an entity type (a TypeError in the source);
  - a missing link target or chosen-values table (TypeErrors).
- On error, counters and chosen values keep the updates made before it, as in the source.
- JavaScript object key order is not modelled. Sets, properties and navigations are taken in document order, whereas JavaScript enumerates integer-like keys first.
- Entity sets and each set's navigation properties are JavaScript objects keyed by name, so `Schema.WellFormed` (the requires of `CreateMockData`) makes their names distinct. Properties are arrays in the source as in the model, so a duplicate property name is visited once per declaration in both.
- Rule configurations other than an array, a string or a `{reference, values}` object (a number or boolean, say) are not modelled.
- Objects taken from rules and variables are values here, so sharing one object between records (aliasing) is not modelled.
- The call `this._findEntityTypes(this._oMetadata)` in `createMockData` is not modelled: its result is discarded.
- GeneratePropertyValue: the counters after a multi-draw or complex-type default are stated only as "the property's own stream moved" or not at all. The values of defaults are stated by shape, not exactly.
- DependentRule: when the reference is unset and declared, the reference is generated and stored first, and the value is that of generating the property again on the extended record. The contract states that the reference is then set and the record only grows, not that value: the second generation may take any path, including a value the nested generation already stored for the property.
- RuleValue: inherits that gap from DependentRule for a dependent rule whose reference is unset.
- GenerateUnset: inherits that gap from DependentRule for a dependent rule whose reference is unset.
- GeneratePropertyValue: inherits that gap from DependentRule for a dependent rule whose reference is unset.
- DefaultValue: for index 0, the counters are stated only through the resolved index. The value is given exactly for String and by shape for the other types.
- LinkReferences: the whole-pass contract states only names and counts. The effect of each step is stated by LinkEntry.
- CreateMockData: builds URIs on the corrected root `Uris.RootUri`, not on `_getRootUri` as written (see Findings). The two agree when the configured root has no query or fragment (`Uris.RootUriAgrees`).
- CreateMockData: the contents of the records are stated by the members it calls (GenerateSets, LinkEntry, DecorateSet), not restated in its own contract.

## Findings

| source | as written | input that shows it | evidently intended | confidence | as-written member | corrected member |
|---|---|---|---|---|---|---|
| dist/esm/bundle.js:549-553 | The constructor appends `/` to the configured root (62-64). `_getRootUri` then cuts the root at its first `?` or `#`, which removes that slash together with the query. | `mockDataRootURI = "http://host/service?sap-client=100"` gives `http://host/serviceProducts(1)` | `http://host/service/Products(1)`: the root without query or fragment, still ending in `/` | not executed | Uris.RootUriAsWrittenLosesSlash | Uris.RootUri |
