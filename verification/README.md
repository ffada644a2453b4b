# type-fest type transformations, modelled in Dafny

type-fest is a collection of TypeScript utility types. Its test suite pins
down what each utility type computes with `expectType`, `expectAssignable`
and `expectNotAssignable` assertions on concrete types. This project models
eight of these utilities as pure functions over a structural description of
TypeScript types, proves each assertion of their tests about that model, and
proves general laws that the assertions are instances of:

- `CamelCase` (with `Split`): string keys to camelCase, and `CamelCasedProperties`, which
  renames the keys of an object type, alternative by alternative over a union;
- `PascalCasedPropertiesDeep`: PascalCase keys, recursively through nested objects,
  arrays and sets, with functions left alone;
- `Jsonify` and `JsonValue`: the type a value has after a trip through
  `JSON.stringify`/`JSON.parse`, and the types that are already JSON;
- `Merge`: one object type overriding the keys of another;
- `RemoveIndexSignature`: keeping only the literal keys of an object type, alternative by
  alternative over a union;
- `ConditionalSimplify` and `ConditionalSimplifyDeep`: flattening an intersection of object types
  into one object type, unless the type is excluded or not included;
- `TupleToUnion`: the union of the element types of a tuple or array, alternative by alternative
  over a union;
- `LiteralToPrimitive`: every literal alternative widened to its primitive.

A TypeScript type is a `Shapes.Shape`. It covers:

- primitives and literals;
- `undefined`, `null` and the infinities;
- the built-in classes the utilities single out (`Date`, `RegExp`, typed arrays, `Map`, `Set`, boxed
  primitives);
- function types, arrays and tuples with an optional rest element;
- object types, written as a map of literal keys to fields (`optional`, `value`) plus a map of index
  signatures;
- unions and intersections, written as sets because their order does not matter.

`never` is the empty union. `Shapes.MkUnion` builds a union the way TypeScript
does: nested unions are flattened, and a union with a single alternative is that alternative.

Modules:

| module | file | contents |
|---|---|---|
| `Shapes` | shapes.dfy | the type description, union building, `Exclude` |
| `CaseConversion`, `CaseLaws`, `CamelCaseFixtures` | case_conversion.dfy, case_laws.dfy, camel_case_fixtures.dfy | `Split`, word splitting, `CamelCase`, `PascalCase` |
| `KeyRenaming`, `KeyRenamingLaws`, `KeyRenamingFixtures` | key_renaming*.dfy | `CamelCasedProperties`, `PascalCasedPropertiesDeep` |
| `Json`, `JsonLaws`, `JsonFixtures` | json*.dfy | `Jsonify`, `JsonValue` |
| `Merging`, `MergeLaws` | merge*.dfy | `Merge` |
| `IndexSignatures`, `IndexSignatureLaws` | remove_index_signature*.dfy | `RemoveIndexSignature` |
| `ObjectFixtures` | object_fixtures.dfy | the `Merge` and `RemoveIndexSignature` examples |
| `Simplification`, `SimplifyLaws`, `SimplifyFixtures` | conditional_simplify.dfy, simplify_*.dfy | `ConditionalSimplify`, `ConditionalSimplifyDeep` |
| `Unions`, `UnionLaws`, `UnionFixtures` | unions*.dfy | `TupleToUnion`, `LiteralToPrimitive` |

Each test assertion is a lemma in a `...Fixtures` module. The general laws it is an instance of live in
the `...Laws` modules. The TypeScript implementations of the utilities under
`source/` are not part of this model: each function here is written from the
behaviour the tests assert, and from the JSON serialisation rules of ECMA-262 (section 25.5.2,
SerializeJSONProperty) for `Jsonify`.

## Model

| member | source | states |
|---|---|---|
| CaseConversion.Split | test-d/camel-case.ts:5-6 | `Split` yields at least one part, and no part contains the delimiter |
| CaseConversion.CamelCase | test-d/camel-case.ts:9-49 | a camelCased key never starts with an upper-case letter |
| CaseConversion.PascalCase | test-d/pascal-cased-properties-deep.ts:4-5 | a PascalCased key is as long as the camelCased one and never starts with a lower-case letter |
| CaseLaws.SplitThenJoin | test-d/camel-case.ts:5-6 | joining the parts of `Split<S, D>` with `D` gives `S` back |
| CaseLaws.JoinThenSplit | test-d/camel-case.ts:5-6 | splitting a join of delimiter-free parts gives those parts back |
| CaseLaws.SplitVeryPrefixed | test-d/camel-case.ts:5-6 | `Split<'--very-prefixed', '-'>` is `['', '', 'very', 'prefixed']` |
| CaseLaws.WordsPartition | test-d/camel-case.ts:9-49 | the words of a key are non-empty, free of delimiters and of lower-to-upper humps, and concatenate to the key with its delimiters removed |
| CaseLaws.CamelCaseKeepsLetters | test-d/camel-case.ts:9-49 | `CamelCase` keeps every letter of the key in order, up to case, drops exactly the delimiters, and starts lower-case |
| CaseLaws.PascalCaseKeepsLetters | test-d/camel-case.ts:9-49 | `PascalCase` keeps the key's letters in order up to case, has no delimiter, and does not start lower-case |
| CaseLaws.CamelCaseLetters | test-d/camel-case.ts:9-49 | letter by letter, `CamelCase` is the key without its delimiters with the first letter lower-cased, the first letter of every later word upper-cased and every other letter as written (a key with no lower-case letter is lower-cased first) |
| CaseLaws.PascalCaseLetters | test-d/pascal-cased-properties-deep.ts:4-5 | letter by letter, `PascalCase` is the key without its delimiters with the first letter of every word upper-cased and every other letter as written |
| CaseLaws.CamelCaseOfLowerWord | test-d/camel-case.ts:24-25 | a key with no delimiter and no upper-case letter is its own camelCase |
| CaseLaws.WordsAcrossDelimiter | test-d/camel-case.ts:12-22 | a delimiter separates words: the words of `a-b` are the words of `a` followed by those of `b` |
| CaseLaws.WordsAcrossHump | test-d/camel-case.ts:9-10 | a lower-case letter followed by an upper-case one starts a new word |
| CaseLaws.WordsOfOneWord | test-d/camel-case.ts:24-25 | a non-empty key with no delimiter and no lower-to-upper hump is one word; with the two rules above this fixes the words of every key |
| CaseLaws.SplitHumpsShape | test-d/camel-case.ts:27-28 | splitting at humps loses nothing, keeps the first letter first, and leaves no hump inside a word |
| CamelCaseFixtures.CamelFromPascal | test-d/camel-case.ts:9-10 | `CamelCase<'FooBar'>` is `'fooBar'` |
| CamelCaseFixtures.CamelFromDelimited | test-d/camel-case.ts:12-22 | for each delimiter (`-`, `_`, space) `foo`, the delimiter, `bar` camelCases to `'fooBar'`: so `CamelCase<'foo-bar'>`, `CamelCase<'foo bar'>` and `CamelCase<'foo_bar'>` are all `'fooBar'` |
| CamelCaseFixtures.CamelFromComplexKebab | test-d/camel-case.ts:15-16 | `CamelCase<'foo-bar-abc-123'>` is `'fooBarAbc123'` |
| CamelCaseFixtures.CamelFromMonoAndLowercase | test-d/camel-case.ts:24-43 | `CamelCase<'foobar'>` is `'foobar'` and `CamelCase<'foo'>` is `'foo'` |
| CamelCaseFixtures.CamelFromMixed | test-d/camel-case.ts:27-28 | `CamelCase<'foo-bar_abc xyzBarFoo'>` is `'fooBarAbcXyzBarFoo'` |
| CamelCaseFixtures.CamelFromVendorPrefixed | test-d/camel-case.ts:30-31 | `CamelCase<'-webkit-animation'>` is `'webkitAnimation'` |
| CamelCaseFixtures.CamelFromDoublePrefixed | test-d/camel-case.ts:33-34 | `CamelCase<'--very-prefixed'>` is `'veryPrefixed'` |
| CamelCaseFixtures.CamelFromRepeatedSeparators | test-d/camel-case.ts:36-37 | `CamelCase<'foo____bar'>` is `'fooBar'` |
| CamelCaseFixtures.CamelFromUppercase | test-d/camel-case.ts:39-40 | `CamelCase<'FOO'>` is `'foo'` |
| CamelCaseFixtures.CamelFromScreaming | test-d/camel-case.ts:45-49 | for each delimiter, `FOO`, the delimiter, `BAR` camelCases to `'fooBar'`: so `CamelCase<'FOO_BAR'>` and `CamelCase<'FOO-BAR'>` are both `'fooBar'` |
| KeyRenaming.CamelCasedProperties | test-d/camel-case.ts:52-54 | for an object type `T`, the keys of `CamelCasedProperties<T>` are exactly the camelCased keys of `T`, and its index signatures are those of `T`; for any `T`, each alternative of the result that is not an object type is an alternative of `T` |
| KeyRenamingLaws.CamelCasedPropertiesKeepTypes | test-d/camel-case.ts:52-54 | when no two keys collide, the property under `CamelCase<K>` is `T[K]`, optionality included |
| KeyRenamingLaws.RenameInjective | test-d/camel-case.ts:52-54 | renaming keys without collisions moves every property unchanged to its new key |
| KeyRenamingFixtures.CamelCasedRawOptions | test-d/camel-case.ts:56-72 | `CamelCasedProperties<RawOptions>` has keys `dryRun`, `fullFamilyName`, `foo`, `bar`, `quzQux`, `otherField` with the original types |
| KeyRenaming.PascalCasedDeep | test-d/pascal-cased-properties-deep.ts:4-11 | functions, `Date` and `RegExp` are left as they are; arrays and sets stay arrays and sets, and tuples become arrays |
| KeyRenamingLaws.PascalCasedProperties | test-d/pascal-cased-properties-deep.ts:4-5 | each property of an object moves to its PascalCased key, with its value converted deeply and its optionality kept |
| KeyRenamingLaws.PascalCasedKeys | test-d/pascal-cased-properties-deep.ts:4-5 | every key of a converted object is free of delimiters and does not start lower-case |
| KeyRenamingLaws.PascalCasedFixpoint | test-d/pascal-cased-properties-deep.ts:26-48 | a type whose keys are all PascalCase already is its own conversion |
| KeyRenamingFixtures.PascalNested | test-d/pascal-cased-properties-deep.ts:4-5 | `{helloWorld: {fooBar: string}}` becomes `{HelloWorld: {FooBar: string}}` |
| KeyRenamingFixtures.PascalKeepsFunction | test-d/pascal-cased-properties-deep.ts:7-8 | `() => {a: string}` stays as it is, although `{a: string}` alone would be renamed |
| KeyRenamingFixtures.PascalSet | test-d/pascal-cased-properties-deep.ts:10-11 | `Set<{fooBar: string}>` becomes `Set<{FooBar: string}>` |
| KeyRenamingFixtures.PascalOfUser | test-d/pascal-cased-properties-deep.ts:14-19 | `User` becomes `{UserId, UserName, Date, RegExp}`, with the `Date` and `RegExp` values left as they are |
| KeyRenamingFixtures.PascalOfUserWithFriends | test-d/pascal-cased-properties-deep.ts:21-48 | `UserWithFriends` becomes `{UserInfo: PascalUser; UserFriends: PascalUser[]}` |
| JsonLaws.JsonifyIsJson | test-d/jsonify.ts:82-84 | every `Jsonify<T>` is a `JsonValue` (for `T` without `unknown`) |
| Json.Jsonify | test-d/jsonify.ts:82-94 | every alternative of `Jsonify<T>` is `null`, a boolean, a number, a string, an array, a tuple, an object type or an intersection of them |
| Json.IsJsonValue | test-d/jsonify.ts:43-65 | every alternative of a `JsonValue` is `null`, a boolean, a number, a string, an array, a tuple, an object type or an intersection of them |
| JsonLaws.JsonifyFixpoint | test-d/jsonify.ts:43-54 | a type that is already a `JsonValue` (in normal form) is its own `Jsonify` |
| JsonLaws.JsonifyIdempotent | test-d/jsonify.ts:82-84 | `Jsonify<Jsonify<T>>` is `Jsonify<T>` |
| JsonLaws.JsonifyNormal | test-d/jsonify.ts:237-275 | `Jsonify` yields flat unions without single alternatives and no `never` property |
| JsonLaws.JsonMembers | test-d/jsonify.ts:62-65 | a union is a `JsonValue` exactly when each of its alternatives is |
| JsonLaws.MkUnionJson | test-d/jsonify.ts:62-65 | a union built from several types is a `JsonValue` exactly when all of them are |
| JsonLaws.JsonifyAddField | test-d/jsonify.ts:156-164 | adding a property to an object adds at most that property to its serialisation and changes nothing else |
| JsonFixtures.PrimitivesAreJson | test-d/jsonify.ts:43-46 | `null`, `false`, `0` and `''` are JSON values |
| JsonFixtures.ArraysAreJson | test-d/jsonify.ts:47-49 | `[]` and `[0]` are JSON values |
| JsonFixtures.EmptyObjectIsJson | test-d/jsonify.ts:48 | `{}` is a JSON value |
| JsonFixtures.JsonifiedAIsJson | test-d/jsonify.ts:50-52 | `{a: number}` and its `Jsonify` are JSON values |
| JsonFixtures.NestedIsJson | test-d/jsonify.ts:53 | `{a: {b: boolean, c: {}}, d: ({} \| number \| string)[]}` is a JSON value |
| JsonFixtures.MixedArrayIsJson | test-d/jsonify.ts:54 | `({} \| {a: string} \| null \| number)[]` is a JSON value |
| JsonFixtures.DatesAreNotJson | test-d/jsonify.ts:56-57 | `Date` and `Date[]` are not JSON values |
| JsonFixtures.DateFieldsAreNotJson | test-d/jsonify.ts:58-61 | `{a: Date}` and `{a?: Date}` are not JSON values |
| JsonFixtures.UndefinedIsNotJson | test-d/jsonify.ts:62-65 | `undefined`, `number \| undefined` and `{a: number \| undefined}` are not JSON values |
| JsonFixtures.FunctionsAreNotJson | test-d/jsonify.ts:127-134 | functions and symbols are not JSON values, nor is `{a?: () => any}` (the `W` example at line 63) |
| JsonFixtures.DateToJson | test-d/jsonify.ts:82-84 | `Jsonify<Date>` is `string`, a JSON value |
| JsonFixtures.ParsedStringifiedX | test-d/jsonify.ts:92-94 | `Jsonify<{a: Date}>` is `{a: string}` |
| JsonFixtures.ToJsonIsUsed | test-d/jsonify.ts:96-108 | `Jsonify<NonJsonWithToJSON>` is the JSON type its `toJSON()` returns |
| JsonFixtures.ToJsonClassIsNotJson | test-d/jsonify.ts:106 | the class with a `Map` field and a `toJSON()` method is not a JSON value |
| JsonFixtures.InvalidToJsonIsNotJson | test-d/jsonify.ts:110-124 | a class whose `toJSON()` returns a `Map`, and that result, are not JSON values |
| JsonFixtures.PlainValuesFail | test-d/jsonify.ts:136-144 | `undefined`, functions, symbols and `bigint` serialise to `never` |
| JsonFixtures.ArrayMembersBecomeNull | test-d/jsonify.ts:146-154 | arrays of `undefined`, functions or symbols serialise to `null[]` |
| JsonFixtures.ObjectValueUndefinedDropped | test-d/jsonify.ts:157-158 | an `undefined` property is dropped, `keep: string` stays |
| JsonFixtures.ObjectValueFunctionDropped | test-d/jsonify.ts:160-161 | a function property is dropped, `keep: string` stays |
| JsonFixtures.ObjectValueSymbolDropped | test-d/jsonify.ts:163-164 | a symbol property is dropped, `keep: string` stays |
| JsonFixtures.SymbolKeysDropped | test-d/jsonify.ts:166-168 | a symbol index signature is dropped |
| JsonFixtures.BoxedPrimitivesUnboxed | test-d/jsonify.ts:170-187 | `Number`, `String` and `Boolean` are not JSON values and serialise to `number`, `string`, `boolean` |
| JsonFixtures.TuplesMapElements | test-d/jsonify.ts:189-193 | `[string, Date]` becomes `[string, string]` and `[string, ...Date[]]` becomes `[string, ...string[]]` |
| JsonFixtures.BuiltinsSerialised | test-d/jsonify.ts:195-218 | `bigint` becomes `never`, `Int8Array` becomes `Record<string, number>`, both infinities become `null` |
| JsonFixtures.CollectionsSerialised | test-d/jsonify.ts:203-209 | `Map` and `Set` serialise to `{}` |
| JsonFixtures.OptionalPrimitiveKept | test-d/jsonify.ts:221-237 | `{a?: string}` is unchanged |
| JsonFixtures.OptionalFunctionUnionDropped | test-d/jsonify.ts:225-238 | `{a?: string \| (() => any)}` becomes `{}` |
| JsonFixtures.UndefinedMakesOptional | test-d/jsonify.ts:229-239 | `{a: string \| undefined}` becomes `{a?: string}` |
| JsonFixtures.AppDataKeptFields | test-d/jsonify.ts:244-249 | `requiredString` and `optionalString` are kept unchanged |
| JsonFixtures.AppDataRequiredUnion | test-d/jsonify.ts:246 | `requiredUnion: number \| boolean` is kept unchanged |
| JsonFixtures.AppDataOptionalUnion | test-d/jsonify.ts:250 | `optionalUnion?: number \| string` is kept unchanged |
| JsonFixtures.AppDataOptionalStringUndefined | test-d/jsonify.ts:251 | `string \| undefined` becomes an optional `string` |
| JsonFixtures.AppDataOptionalUnionUndefined | test-d/jsonify.ts:252 | `number \| string \| undefined` becomes an optional `number \| string` |
| JsonFixtures.AppDataDroppedFields | test-d/jsonify.ts:254-260 | each of the six function-typed AppData properties is dropped |
| JsonFixtures.AppDataJsonified | test-d/jsonify.ts:241-275 | `Jsonify<AppData>` is exactly `ExpectedAppDataJson` |
| JsonFixtures.GeometryJsonified | test-d/jsonify.ts:67-78 | `Jsonify<Geometry>` is `Geometry` itself, so `point` is assignable to it |
| Merging.Optionalize | test-d/merge.ts:94-106 | a property whose type is `T \| undefined` with `T` not empty becomes optional `T`; a property that is exactly `undefined`, or cannot be `undefined`, is kept |
| Merging.Merge | test-d/merge.ts:13-14 | the merged keys and index signatures are those of either object |
| MergeLaws.MergeAssociative | test-d/merge.ts:13-14 | `Merge<Merge<A, B>, C>` equals `Merge<A, Merge<B, C>>` |
| MergeLaws.MergeAbsorbsSource | test-d/merge.ts:13-14 | merging the same source again changes nothing |
| MergeLaws.MergeFullOverride | test-d/merge.ts:60-67 | when the second object declares every key of the first, the first contributes nothing |
| MergeLaws.OptionalizeIdempotent | test-d/merge.ts:94-106 | making `undefined` properties optional twice is doing it once |
| ObjectFixtures.MergeOverridesSharedKey | test-d/merge.ts:13-14 | `Merge<{a: number; b: string}, {b: number}>` is `{a: number; b: number}` |
| ObjectFixtures.MergeIndexSignatures | test-d/merge.ts:42-49 | the merged index signatures are `string: unknown`, `number: number`, `symbol: boolean` |
| ObjectFixtures.MergeKeepsDestinationOnlyKeys | test-d/merge.ts:42-49 | the merged properties are `foo: string`, `bar: Date`, `baz: boolean` |
| ObjectFixtures.MergedSymbolIndexIsBoolean | test-d/merge.ts:53-58 | symbol keys hold `boolean`, so a symbol key holding `'life'` is rejected |
| ObjectFixtures.MergeReplacesLiteral | test-d/merge.ts:60-67 | `stripUndefinedValues: false` is replaced by `stripUndefinedValues: true` |
| ObjectFixtures.MergeOptionalKeys | test-d/merge.ts:69-106 | the optional-keys example: keys `a` to `g` with exactly the expected types and optionality, and the three index signatures |
| IndexSignatures.RemoveIndexSignature | test-d/remove-index-signature.ts:4-31 | an object type keeps exactly its literal-key properties and loses every index signature; over a union, every object alternative keeps its literal-key properties without index signatures, no object alternative of the result has an index signature, and every alternative that is not an object type comes from the input |
| IndexSignatureLaws.RemoveIndexSignatureIdempotent | test-d/remove-index-signature.ts:27-31 | removing index signatures twice is removing them once |
| IndexSignatureLaws.RemoveIndexSignatureOfMapped | test-d/remove-index-signature.ts:33-39 | removing the index signatures of a mapped type leaves the mapped literal-key properties |
| IndexSignatureLaws.RemoveIndexSignatureOfMerge | test-d/remove-index-signature.ts:27-31 | removing the index signatures of a merge leaves the merged literal-key properties |
| IndexSignatureLaws.RemoveOfIntersection | test-d/remove-index-signature.ts:4-31 | an intersection of object types becomes one object type with the literal keys of all of them and no index signature |
| ObjectFixtures.RemoveIndexSignatureExamples | test-d/remove-index-signature.ts:27-39 | both examples keep exactly `foo: 'bar'` and `qux?: 'baz'`, mapped to `{key; value}` in the second |
| Simplification.Combine | test-d/conditional-simplify.ts:8-14 | the combined object has the keys and index signatures of all the intersected objects |
| Simplification.Simplify | test-d/conditional-simplify.ts:8-25 | every alternative of the result is left alone by the filters, or is neither a function type nor an intersection of object types; a type that is not a union stays one |
| Simplification.Deep | test-d/conditional-simplify.ts:27-37 | every alternative of the result is left alone by the filters, or is neither a function type nor an intersection of object types; a type that is not a union and that the filters leave alone is returned as it is |
| Simplification.DeepObject | test-d/conditional-simplify.ts:27-37 | deep simplification of an object keeps its keys and index signatures |
| SimplifyLaws.SimplifyIdempotent | test-d/conditional-simplify.ts:8-14 | simplifying twice is simplifying once |
| SimplifyLaws.SimplifyMemberwise | test-d/conditional-simplify.ts:8-14 | a union is simplified alternative by alternative |
| SimplifyLaws.CombineDisjoint | test-d/conditional-simplify.ts:8-14 | intersecting objects with disjoint keys gives the object with all their properties |
| SimplifyLaws.DeepFixpoint | test-d/conditional-simplify.ts:52-59 | a type in which every reachable function or intersection is excluded or not included is left unchanged |
| SimplifyLaws.DeepLosesFunction | test-d/conditional-simplify.ts:18-24 | with no exclusion, a function type becomes `{}` |
| SimplifyLaws.DeepKeepsExcludedFunction | test-d/conditional-simplify.ts:19-25 | an excluded function type is kept |
| SimplifyFixtures.SimplifyPositionAndSize | test-d/conditional-simplify.ts:8-14 | `Position & Size` becomes `{top; left; width; height}` |
| SimplifyFixtures.SimplifySomeFunction | test-d/conditional-simplify.ts:16-25 | `SomeFunction` becomes `{}` (and so is no longer `SomeFunction`), but stays itself when `Function` is excluded |
| SimplifyFixtures.DeepSomeNode | test-d/conditional-simplify.ts:27-37 | `SomeNode` is simplified deeply, inside the array elements too |
| SimplifyFixtures.MovableCollectionLosesMethods | test-d/conditional-simplify.ts:52-58 | with no exclusion the `move` method becomes `{}`, so the result is not `MovableCollection` |
| SimplifyFixtures.MovableCollectionExamples | test-d/conditional-simplify.ts:53-83 | excluding `Function`, `Function \| Size`, or including only `MovableCollection \| Position`, leaves `MovableCollection` as it is |
| Unions.TupleToUnion | test-d/tuple-to-union.ts:25-26 | a type none of whose alternatives holds an element (the empty tuple `[]`, or anything that is not an array) gives `never` |
| UnionLaws.TupleToUnionMembers | test-d/tuple-to-union.ts:4-23 | the alternatives of `TupleToUnion<T>` are exactly the tuple's elements and rest element, not widened |
| UnionLaws.TupleToUnionOfEmpty | test-d/tuple-to-union.ts:25-26 | `TupleToUnion<[]>` is `never` |
| UnionLaws.TupleToUnionOfArray | test-d/tuple-to-union.ts:4-5 | an array gives the alternatives of its element type |
| UnionLaws.TupleToUnionDistributes | test-d/tuple-to-union.ts:4-5 | `TupleToUnion<A \| B>` is `TupleToUnion<A> \| TupleToUnion<B>` |
| UnionFixtures.OptionsUnion | test-d/tuple-to-union.ts:4-23 | `TupleToUnion<['a', 'b', 'c']>` is `'a' \| 'b' \| 'c'`: each literal is an alternative and `string` is not |
| UnionFixtures.EmptyTupleUnion | test-d/tuple-to-union.ts:25-26 | `TupleToUnion<[]>` is `never` |
| Unions.Widen | test-d/literal-to-primitive.ts:4-12 | each alternative widens to one of the seven primitives, or to `never` |
| Unions.LiteralToPrimitive | test-d/literal-to-primitive.ts:4-12 | every alternative of the result is one of the seven primitives |
| UnionLaws.WidenExtends | test-d/literal-to-primitive.ts:4-12 | an alternative widens to primitive `P` exactly when it extends `P` |
| UnionLaws.LiteralToPrimitiveMembers | test-d/literal-to-primitive.ts:10-12 | a primitive is in the result exactly when some alternative of the input extends it |
| UnionLaws.LiteralToPrimitiveIdempotent | test-d/literal-to-primitive.ts:4-12 | widening a widened type changes nothing |
| UnionLaws.LiteralToPrimitiveDistributes | test-d/literal-to-primitive.ts:10-12 | widening a union of two types is the union of widening each |
| UnionFixtures.NumberLiteral | test-d/literal-to-primitive.ts:4-6 | `LiteralToPrimitive<123>` is `number` |
| UnionFixtures.KitchenSink | test-d/literal-to-primitive.ts:10-12 | the eight-alternative union widens to the union of the seven primitives, and the object alternative contributes nothing |
| Shapes.Exclude | test-d/remove-index-signature.ts:23 | `Exclude<T, X>` has the alternatives of `T` other than `X` |

## Left out

- The TypeScript implementations under `source/` are not part of this model. Each function is
  written from the behaviour the test assertions pin down.
- Assignability in general (`expectAssignable`, `extends`) is not modelled.
  - `expectType` becomes equality of shapes.
  - `expectAssignable<JsonValue>` becomes the `Json.IsJsonValue` predicate.
  - `expectAssignable<CamelCasedProperties<RawOptions>>` becomes equality with the expected object type.
  - `ConditionalSimplify`'s `ExcludeType` and `IncludeType` arguments become caller-supplied predicates
    (`Simplification.Filter`). For example, `SimplifyFixtures.ExtendsObject` is a restricted structural
    width check rather than TypeScript's assignability.
- Character classes are ASCII. Upper and lower case are `A`–`Z` and `a`–`z`; there is no Unicode case
  mapping. `Split` takes a single-character delimiter, which is all the tests use.
- Numbers are `real` values. `NaN` is left out, as it is not a distinct type in TypeScript.
- Interfaces and type aliases are the same shape here, so an interface's missing implicit index
  signature is not modelled. The `V` example (jsonify.ts:35, 59) is left out for that reason.
- `tsconfig-json.ts` and `iterable-element.ts` are not part of this model.
- Function parameters are not modelled. A function type is its result type only, which is all that
  `toJSON()` and the `Function` filters need.
- `any` is not modelled. A property typed `any` in the tests is modelled as `unknown` (an empty
  intersection) or as a concrete type where the assertion does not depend on it.
- Built-in classes (`Date`, `RegExp`, typed arrays, `Map`, `Set`, boxed primitives) are atoms with the
  serialisation behaviour the tests state. Their members are not modelled.
  - `Simplification.SimplifyOne` and `Simplification.Deep` leave `Map`, `Set` and `Date` unchanged
    rather than mapping their members.
- Simplification.SimplifyOne: an intersection with a part that is not an object type is left
  unchanged rather than merged. No test simplifies one.
- JsonLaws.JsonifyIsJson: requires that the type has no `unknown` (empty intersection) anywhere,
  because `Jsonify<unknown>` is not a JSON value.
- Json.Jsonify: `Infinity` becomes `null`, as section 25.5.2 of ECMA-262 writes non-finite numbers.
  A `NumLit` stands for a finite number only.
- Merging.Merge: requires both arguments to be object types. `Merge` of a non-object is not exercised
  by the tests.
- Json.JsonifyField: a property whose type mixes a function with other alternatives is dropped whole,
  as the AppData example states. The decision is made per property, not per alternative.
- KeyRenaming.PascalCasedDeep: tuples become arrays of the union of their converted elements.
  Unions are converted alternative by alternative. Intersections are left unchanged, as no test
  converts one.
- KeyRenamingFixtures.CamelCasedRawOptions: states equality with the expected object type, which is
  stronger than the assignability the test asserts.
- IndexSignatures.RemoveIndexSignature: arrays, tuples and function types are returned as they are
  rather than mapped over, and an intersection with a part that is not an object type is left
  unchanged. No test applies `RemoveIndexSignature` to them.
- KeyRenaming.CamelCasedProperties: arrays, tuples and function types are returned as they are
  rather than mapped over, and an intersection with a part that is not an object type is left
  unchanged. No test applies `CamelCasedProperties` to them.
- KeyRenaming.RenamedField: when two keys rename to the same key, the model gives the union of
  their types, optional only if every one of them was. This is a model choice: TypeScript takes the
  optional modifier from the first colliding key in `keyof` order, and no test renames two keys onto
  one.
- Merging.Merge: a `string` index signature of the second object does not absorb a `number` index
  signature of the first; both are kept. No test merges such a pair.
- Unions.Widen: a branded primitive (an intersection such as `string & {brand: 'x'}`) widens to
  `never`, not to its primitive. No test widens one.
- The `expectNotAssignable<JsonValue>(point)` assertion (jsonify.ts:77) relies on `Geometry` being an
  interface without an implicit index signature, which this model does not distinguish from a type
  alias (see above); only line 78 is modelled.
