# oats: the reflection decoder and the fast-check driver's `modulePath`

This project models two pieces of the oats OpenAPI toolchain in Dafny and
proves properties of them.

**The runtime's reflection decoder** (`make.fromReflection`). A type
descriptor (`ReflectionType.Type`: named, union, intersection, string,
number, array, object, unknown) is turned into a validator. A validator
takes a JSON-like value (`Values.Value`, with an `undefined` arm, and
objects kept as ordered lists of own fields) and an options record
(`unknownField: fail | drop`). It returns a `Decoded` result: either a
value or a list of path-qualified errors. The model has these parts:

- `Decoder.Decode` is the dispatcher. It is a structural recursion over the
  descriptor and passes the options on unchanged to every nested
  validation.
- `UnionResolution` picks a union's result from the results of all its
  options. A single named success wins. Otherwise a single success wins.
  Otherwise the union is ambiguous or has no match.
- `IntersectionMerge` merges the branch outputs of an intersection. It
  spreads them the way JavaScript's `{...a, ...b}` does.
- `Formats.FormatRegistry` is the process-wide registry behind
  `registerFormat`. It is a class with a map field and a `Register` method.
- `Compile.Build` and `Compile.FromReflection` model building a validator.
  An invalid string pattern makes the build fail; it never shows up as a
  `Decoded` error. A successful build returns exactly the validator
  `Decode` describes.
- `Scenarios` restates the runtime's documented examples as lemmas and
  methods over the model.

**`modulePath(importer, module)` of the fast-check driver**
(`Driver.ModulePath`). It computes the import specifier a generated file
uses for the runtime. It is a method with a mutable local `p`, updated in
the same three steps as `modulePath` does at driver.ts:12-19. It is proved
equal to `Driver.Specifier`, which states the result as its parts. `PosixPath`
models the POSIX `path.dirname`, `path.basename(p, ext)` and
`path.relative` it calls.

The implementation of `make.fromReflection` (`src/make.ts`) is not part of
this model. The decoder follows the contract that
`packages/oats-runtime/test/make-from-reflection.spec.ts` pins down. Where
that contract leaves something open, the model picks a rule and lists it
under "Left out".
`additionalProperties` can also be `true` (`Additional.Open`), as
make-from-reflection.spec.ts:184 uses it.

## Model

| member | source | states |
|---|---|---|
| Decoding.Error | packages/oats-runtime/test/make-from-reflection.spec.ts:123 | a single error is an error result with exactly one entry, which has the empty path (the validator's own position) and the given message |
| Decoding.Under | packages/oats-runtime/test/make-from-reflection.spec.ts:223-240 | nesting errors one level down keeps their number and puts the key or index in front of each path |
| Decoding.AllErrors | packages/oats-runtime/test/make-from-reflection.spec.ts:23-114 | every error of every failing result is in the collected list |
| ReflectionType.FindProperty | packages/oats-runtime/test/make-from-reflection.spec.ts:373-382 | the lookup of a declared property finds the first declaration with that name, and finds nothing exactly when no declaration has it |
| Formats.FormatRegistry.constructor | packages/oats-runtime/test/make-from-reflection.spec.ts:145-152 | the registry starts empty |
| Formats.FormatRegistry.Register | packages/oats-runtime/test/make-from-reflection.spec.ts:155-157 | after registration the name maps to the new format (a later registration replaces an earlier one); every other name keeps its format and no name is removed |
| Decoder.CheckString | packages/oats-runtime/test/make-from-reflection.spec.ts:116-174 | a string is accepted exactly when it matches the pattern (if any) and no registered format rejects it; an accepted result is the input string itself, not the format's payload; a mismatch gives the `<v> does not match pattern /<p>/` message; a rejecting format's own result is returned |
| Decoder.CheckNumber | packages/oats-runtime/test/make-from-reflection.spec.ts:210-221 | a number is accepted exactly when it lies within both inclusive bounds and is returned unchanged; below the minimum gives the greater-or-equal message, above the maximum the smaller-or-equal message |
| Decoder.Elements | packages/oats-runtime/test/make-from-reflection.spec.ts:223-240 | the array succeeds exactly when every item succeeds, with one output per item in input order; otherwise every item's error is reported under that item's index |
| Decoder.DecodeField | packages/oats-runtime/test/make-from-reflection.spec.ts:242-393 | a magic key is always rejected; a kept field keeps its key; a closed object keeps only declared keys; a field is omitted only under the drop policy or when a declared property has the value undefined |
| Decoder.Rejections | packages/oats-runtime/test/make-from-reflection.spec.ts:302-353 | every error of every rejected field is in the object's error list |
| Decoder.KeptFields | packages/oats-runtime/test/make-from-reflection.spec.ts:302-393 | the output holds every kept field and nothing else |
| Decoder.MissingRequired | packages/oats-runtime/test/make-from-reflection.spec.ts:302-309 | there are no missing-field errors exactly when every required property is present; each absent required property gives an error under its key |
| DecoderProperties.NamedDelegates | packages/oats-runtime/test/make-from-reflection.spec.ts:6-20 | a named descriptor returns what its maker returns on the same value and options |
| DecoderProperties.UnknownAcceptsEverything | packages/oats-runtime/test/make-from-reflection.spec.ts:199-208 | unknown accepts every value and returns it unchanged |
| DecoderProperties.UnionSingleMatch | packages/oats-runtime/test/make-from-reflection.spec.ts:24-42 | when exactly one option succeeds, the union returns that option's result |
| DecoderProperties.UnionPrefersNamed | packages/oats-runtime/test/make-from-reflection.spec.ts:44-65 | one successful named option wins over any number of successful structural options |
| DecoderProperties.UnionTwoNamedAmbiguous | packages/oats-runtime/test/make-from-reflection.spec.ts:67-97 | two successful named options make the union fail as ambiguous |
| DecoderProperties.UnionStructuralAmbiguous | packages/oats-runtime/test/make-from-reflection.spec.ts:99-113 | two successes with no successful named option make the union fail as ambiguous |
| DecoderProperties.UnionNoMatch | packages/oats-runtime/test/make-from-reflection.spec.ts:23-114 | when no option succeeds the union fails and reports every option's errors |
| DecoderProperties.IntersectionNeedsEveryBranch | packages/oats-runtime/test/make-from-reflection.spec.ts:177-197 | an intersection succeeds exactly when every branch accepts the same input; on failure every branch error is reported |
| DecoderProperties.IntersectionMergesDisjointObjects | packages/oats-runtime/test/make-from-reflection.spec.ts:177-197 | branch outputs that are objects with disjoint keys merge into all their fields, in branch order |
| DecoderProperties.ArrayAccepts | packages/oats-runtime/test/make-from-reflection.spec.ts:228-239 | an array is accepted exactly when its length is within both inclusive bounds and every item is accepted |
| DecoderProperties.ArrayKeepsOrder | packages/oats-runtime/test/make-from-reflection.spec.ts:224-227 | the output array has one entry per input item, each the item's output, in input order |
| DecoderProperties.ArrayBoundMessages | packages/oats-runtime/test/make-from-reflection.spec.ts:228-239 | a too-short array fails with the minimum-length message, a too-long one with the maximum-length message |
| DecoderProperties.ArrayReportsEveryFailingItem | packages/oats-runtime/test/make-from-reflection.spec.ts:223-240 | for an array descriptor without length bounds, each failing item's errors appear under its index, whatever the other items do |
| DecoderProperties.DecodeReports | packages/oats-runtime/test/make-from-reflection.spec.ts:6-393 | a failing validation carries at least one error, provided every named maker reachable from the descriptor and every registered format carries one whenever it fails |
| UnionResolution.Successes | packages/oats-runtime/test/make-from-reflection.spec.ts:23-114 | the positions found are exactly the successful options, ascending |
| UnionResolution.Resolve | packages/oats-runtime/test/make-from-reflection.spec.ts:23-114 | a successful union result is the result of one of its options; a failing union result always carries at least one error |
| UnionResolution.OnlyMatchWins | packages/oats-runtime/test/make-from-reflection.spec.ts:24-42 | the only success is the result |
| UnionResolution.NamedMatchWins | packages/oats-runtime/test/make-from-reflection.spec.ts:44-65 | the only named success is the result, whatever else succeeded |
| UnionResolution.NominalAmbiguity | packages/oats-runtime/test/make-from-reflection.spec.ts:67-97 | two named successes give the ambiguity error |
| UnionResolution.StructuralAmbiguity | packages/oats-runtime/test/make-from-reflection.spec.ts:99-113 | two successes and no named one give the ambiguity error |
| UnionResolution.NoMatchFails | packages/oats-runtime/test/make-from-reflection.spec.ts:23-114 | no success gives an error that reports every option's errors |
| IntersectionMerge.Combine | packages/oats-runtime/test/make-from-reflection.spec.ts:177-197 | the intersection succeeds exactly when every branch succeeds, with the merge of the outputs (the input itself for no branches); every branch error is reported |
| IntersectionMerge.AssignLookup | packages/oats-runtime/test/make-from-reflection.spec.ts:177-197 | after assigning a field its key holds the new value and every other key what it held before |
| IntersectionMerge.AssignKeys | packages/oats-runtime/test/make-from-reflection.spec.ts:177-197 | an assignment adds the assigned key and no other |
| IntersectionMerge.AssignUnique | packages/oats-runtime/test/make-from-reflection.spec.ts:177-197 | an assignment keeps the keys unique |
| IntersectionMerge.AssignFresh | packages/oats-runtime/test/make-from-reflection.spec.ts:177-197 | assigning a new key appends the field |
| IntersectionMerge.AssignPresent | packages/oats-runtime/test/make-from-reflection.spec.ts:177-197 | assigning a field the object already holds changes nothing |
| IntersectionMerge.SpreadLookup | packages/oats-runtime/test/make-from-reflection.spec.ts:177-197 | a key of the spread holds the later object's value when it has the key, and the earlier object's otherwise |
| IntersectionMerge.SpreadHasKey | packages/oats-runtime/test/make-from-reflection.spec.ts:177-197 | the spread has exactly the keys of both objects |
| IntersectionMerge.SpreadUnique | packages/oats-runtime/test/make-from-reflection.spec.ts:177-197 | the spread keeps the keys unique |
| IntersectionMerge.SpreadDisjoint | packages/oats-runtime/test/make-from-reflection.spec.ts:177-197 | with no shared key the spread is the two field lists one after the other |
| IntersectionMerge.SpreadAbsorbs | packages/oats-runtime/test/make-from-reflection.spec.ts:177-197 | spreading fields an object already holds leaves it as it was |
| IntersectionMerge.ConcatFieldsKey | packages/oats-runtime/test/make-from-reflection.spec.ts:177-197 | the concatenated fields have a key exactly when one of the objects has it |
| IntersectionMerge.MergeAllDisjoint | packages/oats-runtime/test/make-from-reflection.spec.ts:177-197 | objects with pairwise disjoint keys merge into all their fields, in order |
| ObjectProperties.AllFieldsKept | packages/oats-runtime/test/make-from-reflection.spec.ts:355-362 | an object whose every field is kept and which has every required property is accepted with the kept fields |
| ObjectProperties.OmitContributesNothing | packages/oats-runtime/test/make-from-reflection.spec.ts:302-309 | an omitted field adds no rejection, no error and no output field |
| ObjectProperties.OmittedFieldIsInvisible | packages/oats-runtime/test/make-from-reflection.spec.ts:302-309 | an object with an omitted field decodes exactly as the object without it |
| ObjectProperties.DropIgnoresUnknownField | packages/oats-runtime/test/make-from-reflection.spec.ts:302-344 | under the drop policy an undeclared, non-magic key of a closed object leaves no trace, whatever its value: the object decodes exactly as the object without it |
| ObjectProperties.OptionalUndefinedIsOmitted | packages/oats-runtime/test/make-from-reflection.spec.ts:384-393 | an optional declared property given undefined leaves no trace |
| ObjectProperties.RejectedFieldFails | packages/oats-runtime/test/make-from-reflection.spec.ts:346-353 | one rejected field makes the object fail with that field's errors among its errors |
| ObjectProperties.MagicKeyIsRejected | packages/oats-runtime/test/make-from-reflection.spec.ts:243-300 | `__proto__` and `constructor` always make the object fail, with the declared-field message when declared and the additional-field message otherwise |
| ObjectProperties.ClosedRejectsUnknownField | packages/oats-runtime/test/make-from-reflection.spec.ts:346-353 | with the default policy an undeclared key of a closed object makes it fail |
| ObjectProperties.DeclaredPropertyWins | packages/oats-runtime/test/make-from-reflection.spec.ts:373-382 | a declared key is validated by its declaration, never by additionalProperties |
| ObjectProperties.AdditionalSchemaApplies | packages/oats-runtime/test/make-from-reflection.spec.ts:364-371 | an undeclared key is validated by the additionalProperties type, under its key |
| ObjectProperties.MissingPropertyFails | packages/oats-runtime/test/make-from-reflection.spec.ts:302-309 | an object without a required property fails, with an error under that property's key |
| ObjectProperties.ObjectOutputShape | packages/oats-runtime/test/make-from-reflection.spec.ts:242-393 | an accepted object's output holds only keys of the input, never a magic key, and for a closed object only declared keys; an accepted input has every required property; unique input keys stay unique in the output |
| Compile.FirstSyntaxError | packages/oats-runtime/test/make-from-reflection.spec.ts:135-143 | there is no complaint exactly when every pattern compiles; a complaint is the engine's message for one of the patterns |
| Compile.Build | packages/oats-runtime/test/make-from-reflection.spec.ts:135-143 | the build succeeds exactly when every string pattern outside named references compiles; a failure carries the invalid-pattern message with the engine's complaint; a built validator equals the decoder on every value and options |
| Compile.FromReflection | packages/oats-runtime/test/make-from-reflection.spec.ts:155-162 | building reads the formats registered so far |
| Compile.StringPatternAtBuild | packages/oats-runtime/test/make-from-reflection.spec.ts:135-143 | a string descriptor's build fails exactly when its pattern does not compile, with that pattern's message |
| Compile.NestedPatternAtBuild | packages/oats-runtime/test/make-from-reflection.spec.ts:135-143 | an invalid pattern inside an object property also fails the build |
| Scenarios.NamedUsesItsMaker | packages/oats-runtime/test/make-from-reflection.spec.ts:6-20 | a named reference to the built string validator accepts `'aaa'` as `'aaa'` |
| Scenarios.UnionOfTwoObjects | packages/oats-runtime/test/make-from-reflection.spec.ts:24-42 | `{a: 1}` against string-`a` and number-`a` objects gives `{a: 1}` |
| Scenarios.UnionPrefersValueClass | packages/oats-runtime/test/make-from-reflection.spec.ts:44-65 | unknown beside an accepting value class returns the value class's output `w`, whatever `w` is, not unknown's copy of the input |
| Scenarios.UnionOfTwoValueClasses | packages/oats-runtime/test/make-from-reflection.spec.ts:67-97 | unknown beside two accepting value classes fails |
| Scenarios.UnionOfUnknownAndString | packages/oats-runtime/test/make-from-reflection.spec.ts:99-113 | unknown beside string on `'x'` fails |
| Scenarios.PatternRejects | packages/oats-runtime/test/make-from-reflection.spec.ts:117-124 | `'b'` against pattern `a+` fails with exactly `b does not match pattern /a+/` |
| Scenarios.PatternAccepts | packages/oats-runtime/test/make-from-reflection.spec.ts:126-133 | `'aaa'` against pattern `a+` succeeds |
| Scenarios.InvalidPatternFailsBuild | packages/oats-runtime/test/make-from-reflection.spec.ts:135-143 | the pattern `\` fails the build with a message starting with the invalid-pattern text and `Invalid regular expression` |
| Scenarios.UnregisteredFormat | packages/oats-runtime/test/make-from-reflection.spec.ts:145-152 | with a fresh registry an unknown format accepts `'b'` as `'b'` |
| Scenarios.RejectingFormat | packages/oats-runtime/test/make-from-reflection.spec.ts:154-164 | after registering a rejecting format, `'b'` fails with exactly its error `some error` |
| Scenarios.AcceptingFormat | packages/oats-runtime/test/make-from-reflection.spec.ts:166-174 | after registering a format that succeeds with undefined, `'b'` is accepted as `'b'` |
| Scenarios.IntersectionOfOpenObjects | packages/oats-runtime/test/make-from-reflection.spec.ts:177-197 | `{a: 'xxx', b: 1}` against two open objects gives `{a: 'xxx', b: 1}` |
| Scenarios.NumberBounds | packages/oats-runtime/test/make-from-reflection.spec.ts:210-221 | minimum 3 rejects 2 with the greater-or-equal message and accepts 3; maximum 3 rejects 4 with the smaller-or-equal message and accepts 3 |
| Scenarios.ArrayExamples | packages/oats-runtime/test/make-from-reflection.spec.ts:223-240 | `['a', 'b']` keeps its order; the length bounds reject two and four items with their messages and accept three |
| Scenarios.ArrayIsNotAnObject | packages/oats-runtime/test/make-from-reflection.spec.ts:258-265 | `[]` against an object fails with exactly `expected an object, but got "[]" instead.` |
| Scenarios.SingleFieldRejected | packages/oats-runtime/test/make-from-reflection.spec.ts:243-300 | an object whose only field is rejected fails with exactly that field's error |
| Scenarios.ProtoAsDeclaredField | packages/oats-runtime/test/make-from-reflection.spec.ts:244-256 | a declared `__proto__` fails with the declared-field message under its key |
| Scenarios.ConstructorAsDeclaredField | packages/oats-runtime/test/make-from-reflection.spec.ts:267-275 | a declared `constructor` fails with the declared-field message under its key |
| Scenarios.ProtoAsAdditionalField | packages/oats-runtime/test/make-from-reflection.spec.ts:277-287 | an additional `__proto__` fails with the additional-field message under its key |
| Scenarios.ConstructorAsAdditionalField | packages/oats-runtime/test/make-from-reflection.spec.ts:289-299 | an additional `constructor` fails with the additional-field message under its key |
| Scenarios.DropsUnknownField | packages/oats-runtime/test/make-from-reflection.spec.ts:302-309 | `{a: 1, missing: 'a'}` under the drop policy gives `{a: 1}` |
| Scenarios.DropsInNestedObject | packages/oats-runtime/test/make-from-reflection.spec.ts:311-329 | the drop policy removes the unknown key of an object nested in a required property |
| Scenarios.DropsInAdditionalObject | packages/oats-runtime/test/make-from-reflection.spec.ts:331-344 | the drop policy removes the unknown key of an object validated as an additional property |
| Scenarios.DisallowsExtraFields | packages/oats-runtime/test/make-from-reflection.spec.ts:346-353 | without the drop policy `{a: 1, missing: 'a'}` fails |
| Scenarios.AllowsDeclaredFields | packages/oats-runtime/test/make-from-reflection.spec.ts:355-362 | `{a: 1}` is accepted |
| Scenarios.AllowsAdditionalFields | packages/oats-runtime/test/make-from-reflection.spec.ts:364-371 | `{a: 'xxx'}` against string additional properties gives `{a: 'xxx'}` |
| Scenarios.PrefersDeclaredField | packages/oats-runtime/test/make-from-reflection.spec.ts:373-382 | `{a: 1}` with `a` declared a number and string additional properties gives `{a: 1}` |
| Scenarios.AllowsUndefinedOptional | packages/oats-runtime/test/make-from-reflection.spec.ts:384-393 | `{a: undefined}` with `a` optional gives `{}` |
| PosixPath.Split | packages/oats-fast-check/src/driver.ts:12 | cutting a path at '/' gives at least one piece, and no piece holds a '/' |
| PosixPath.SplitJoin | packages/oats-fast-check/src/driver.ts:12 | joining pieces without '/' and cutting them again gives them back |
| PosixPath.JoinSplit | packages/oats-fast-check/src/driver.ts:12 | cutting a path and joining the pieces gives it back |
| PosixPath.Resolve | packages/oats-fast-check/src/driver.ts:12 | a resolved path is a list of plain names |
| PosixPath.CommonPrefix | packages/oats-fast-check/src/driver.ts:12 | the shared prefix is common to both paths and cannot be extended |
| PosixPath.RelativeEmpty | packages/oats-fast-check/src/driver.ts:12 | `relative` is empty exactly when both paths resolve to the same directory |
| PosixPath.RelativeHasNoEdgeSlash | packages/oats-fast-check/src/driver.ts:12-18 | `relative` neither starts nor ends with '/' |
| PosixPath.RelativeArrives | packages/oats-fast-check/src/driver.ts:12 | walking `relative(from, to)` from `from` arrives at `to` |
| PosixPath.RelativeToChild | packages/oats-fast-check/src/driver.ts:12 | from a directory to its child `x` the relative path is `x` |
| PosixPath.Dirname | packages/oats-fast-check/src/driver.ts:12 | `dirname` is never empty and is `.`, `/`, `//` or a proper prefix of the path |
| PosixPath.DirnameOfChild | packages/oats-fast-check/src/driver.ts:12 | the directory of `d/name` is `d` |
| PosixPath.Basename | packages/oats-fast-check/src/driver.ts:19 | the base name has no '/'; a last piece ending with the extension (and longer than it) loses it; any other last piece is kept whole |
| PosixPath.LastNameOfChild | packages/oats-fast-check/src/driver.ts:19 | the last piece of `d/name` is `name` |
| Driver.ModulePath | packages/oats-fast-check/src/driver.ts:8-21 | without a module the result is `@smartlyio/oats`; with one it is the directory part, one '/', and the base name, and it starts with '.' |
| Driver.FalsyModuleIsRuntime | packages/oats-fast-check/src/driver.ts:9-11 | an undefined or empty module gives exactly `@smartlyio/oats` |
| Driver.SpecifierShape | packages/oats-fast-check/src/driver.ts:12-19 | the result starts with '.'; a relative directory starting with '.' is kept as it is, any other is prefixed with `./`, and an empty one gives `./` and the base name; the directory part never ends with '/' |
| Driver.DirPartShape | packages/oats-fast-check/src/driver.ts:13-18 | the directory part starts with '.' and does not end with '/' |
| Driver.TsBasename | packages/oats-fast-check/src/driver.ts:19 | the base name of `d/name.ts` without `.ts` is `name` |
| Driver.TsExtensionStripped | packages/oats-fast-check/src/driver.ts:19 | a module `d/name.ts` is imported as the directory part and `name` |
| Driver.OtherExtensionKept | packages/oats-fast-check/src/driver.ts:19 | a module whose base name does not end with `.ts` keeps its whole base name |
| Driver.SameDirectorySameSpecifier | packages/oats-fast-check/src/driver.ts:12 | two importers whose directories resolve to the same place get the same specifier |
| Driver.SiblingModule | packages/oats-fast-check/src/driver.ts:12-19 | a module in the importer's own directory gives `./` and its base name |
| Driver.DirPartArrives | packages/oats-fast-check/src/driver.ts:12-15 | the directory part, walked from the importer's directory, arrives at the module's directory |
| Driver.DotPathIsNotRelative | packages/oats-fast-check/src/driver.ts:13-15 | `dotdir/name`, for a directory name starting with '.', is neither `./…` nor `../…` |
| Driver.DotDirectoryNotPrefixed | packages/oats-fast-check/src/driver.ts:13-15 | as written, a module under a child directory whose name starts with '.' gives `dotdir/name`, which is not a relative specifier |
| Driver.CorrectedSpecifier | packages/oats-fast-check/src/driver.ts:13-15 | with the prefix test corrected, every specifier of a module starts with `./` or `../` |
| Driver.CorrectedDirPartArrives | packages/oats-fast-check/src/driver.ts:13-15 | the corrected directory part still arrives at the module's directory |
| Driver.DotDirectoryPrefixed | packages/oats-fast-check/src/driver.ts:13-15 | corrected, the same module gives `./dotdir/name` |

## Left out

- `src/make.ts` is not part of this model. The decoder is the engine that `make-from-reflection.spec.ts` describes. Where the tests leave something open, the model picks a rule. The messages for a non-string, a non-number, a non-array, an unexpected field, a missing required field, an ambiguous union and a union with no match are placeholders.
- Regular expressions are not modelled. A `RegexEngine` value stands for JavaScript's `RegExp`: it gives each pattern's syntax complaint and decides whether a pattern matches a string.
- A value class's `make` (`TestClass`) is the maker function of a named reference. `isA` and `definition` are never used, so they are not modelled.
- The unknown validator's promise to return a copy, not the same object, cannot be stated. Dafny datatype values have no identity, so value equality is the whole property.
- Numbers are `int`. Floating point, NaN and Infinity are not modelled.
- `Values.Show` renders a value inside the "expected an object" message. Only the rendering of `[]` is pinned; strings are rendered without JavaScript's escaping.
- Scenarios.ProtoAsDeclaredField, Scenarios.ConstructorAsDeclaredField, Scenarios.ProtoAsAdditionalField and Scenarios.ConstructorAsAdditionalField state their messages as `MagicProperty(k)` and `MagicAdditional(k)`. They do not spell out the literal texts. The functions' bodies hold those texts, including the additional-field message's trailing period. Proving the literal equalities is beyond the solver budget.
- When intersection branches return objects with overlapping keys, the model lets the later branch win, as JavaScript's object spread does. Overlapping keys are proved at the field-list level: the later object's value wins (`IntersectionMerge.SpreadLookup`) and fields an object already holds are absorbed (`IntersectionMerge.SpreadAbsorbs`). No lemma about `Decode` covers intersections of branches with overlapping keys.
- The format registry is read at build time. `Compile.FromReflection` uses the formats registered when the validator is built, because the runtime's tests do not pin whether later registrations are seen.
- Scenarios.InvalidPatternFailsBuild: the engine's complaint for `\` is a precondition ("starts with Invalid regular expression"), because the regex engine is abstract.
- The rest of driver.ts (`generate`, lines 23-89) reads and writes files, parses YAML and calls code generators that are not part of this model.
- `modulePath` gets its working directory as an explicit parameter, `cwd`. `path.relative` reads it from the process.
- PosixPath.Basename: Node's scan for trailing slashes is simplified to "the last nonempty piece". The rule for stripping the extension is kept: strip it when the piece ends with the extension and is longer than it; return "" when the path is exactly the extension.
- PosixPath.Relative is computed on resolved piece lists, not by Node's character scan. It gives the same result for POSIX paths. Windows paths are not modelled.

## Findings

| source | as written | input that shows it | evidently intended | confidence | as-written member | corrected member |
|---|---|---|---|---|---|---|
| packages/oats-fast-check/src/driver.ts:13-15 | `p[0] !== "."` skips the `./` prefix for every relative directory that starts with '.' | importer `/p/gen.ts` with module `/p/.lib/runtime.ts` gives `.lib/runtime`, which module resolution reads as a package name | prefix `./` unless the directory is `..` or starts with `../`, giving `./.lib/runtime` | not executed | Driver.DotDirectoryNotPrefixed | Driver.DotDirectoryPrefixed |
