/** The `Merge` and `RemoveIndexSignature` examples of the type-fest test suite. */
module ObjectFixtures {
  import opened Shapes
  import opened Merging
  import opened IndexSignatures
  import opened MergeLaws
  import opened IndexSignatureLaws

  function Req(v: Shape): Field { Field(false, v) }
  function Opt(v: Shape): Field { Field(true, v) }

  /** A property of a type without `undefined` keeps its optionality. */
  lemma OptionalizePlain(f: Field)
    requires !f.value.Union? && f.value != Undefined
    ensures Optionalize(f) == f
  {
  }

  /** `x | undefined` becomes an optional `x`. */
  lemma OptionalizeOrUndefined(x: Shape, f: Field)
    requires !x.Union? && x != Undefined && f == Req(Union({x, Undefined}))
    ensures Optionalize(f) == Opt(x)
  {
    var ms := {x, Undefined};
    assert ms - {Undefined} == {x};
    MembersOfFlat(ms);
    assert Members(f.value) == ms;
  }

  /** `type Foo = {a: number; b: string}` merged with `type Bar = {b: number}`. */
  lemma MergeOverridesSharedKey()
    ensures Merge(Object(map["a" := Req(Number), "b" := Req(String)], map[]),
                  Object(map["b" := Req(Number)], map[]))
         == Object(map["a" := Req(Number), "b" := Req(Number)], map[])
  {
    var r := Merge(Object(map["a" := Req(Number), "b" := Req(String)], map[]),
                   Object(map["b" := Req(Number)], map[]));
    OptionalizePlain(Req(Number));
    assert r.fields == map["a" := Req(Number), "b" := Req(Number)];
  }

  const FooInterface: Shape :=
    Object(map["foo" := Req(String), "bar" := Req(Symbol)],
           map[StringIndex := Unknown, NumberIndex := Unknown])
  const BarType: Shape :=
    Object(map["bar" := Req(Date), "baz" := Req(Boolean)],
           map[NumberIndex := Number, SymbolIndex := Boolean])

  /** Index signatures merge by key type: the number signature comes from
      `BarType`, the symbol one is added from it, the string one is kept. */
  lemma MergeIndexSignatures()
    ensures Merge(FooInterface, BarType).indexes
         == map[StringIndex := Unknown, NumberIndex := Number, SymbolIndex := Boolean]
  {
    MergeIndexTriple(FooInterface.fields, BarType.fields, Unknown, Unknown, Number, Boolean);
  }

  /** String and number signatures merged with number and symbol ones. */
  lemma MergeIndexTriple(fa: map<string, Field>, fb: map<string, Field>, s: Shape, n: Shape, n2: Shape, y: Shape)
    ensures Merge(Object(fa, map[StringIndex := s, NumberIndex := n]),
                  Object(fb, map[NumberIndex := n2, SymbolIndex := y])).indexes
         == map[StringIndex := s, NumberIndex := n2, SymbolIndex := y]
  {
    var a, b := Object(fa, map[StringIndex := s, NumberIndex := n]), Object(fb, map[NumberIndex := n2, SymbolIndex := y]);
    var r := Merge(a, b).indexes;
    assert r.Keys == {StringIndex, NumberIndex, SymbolIndex};
    MergedIndexFromDestination(a, b, StringIndex);
    MergedIndexFromSource(a, b, NumberIndex);
    MergedIndexFromSource(a, b, SymbolIndex);
    ThreeKeyMap(r, StringIndex, s, NumberIndex, n2, SymbolIndex, y);
  }

  /** `{x: a; y: b}` merged with `{y: b2; z: c}` is `{x: a; y: b2; z: c}`. */
  lemma MergeOverlapping(x: string, y: string, z: string, a: Field, b: Field, b2: Field, c: Field,
                         ia: map<IndexKind, Shape>, ib: map<IndexKind, Shape>)
    requires x != y && x != z && y != z
    requires Optionalize(a) == a && Optionalize(b2) == b2 && Optionalize(c) == c
    ensures Merge(Object(map[x := a, y := b], ia), Object(map[y := b2, z := c], ib)).fields
         == map[x := a, y := b2, z := c]
  {
    var l, s := Object(map[x := a, y := b], ia), Object(map[y := b2, z := c], ib);
    var r := Merge(l, s).fields;
    assert r.Keys == {x, y, z};
    MergedFromSource(l, s, y);
    MergedFromSource(l, s, z);
    MergedFromDestination(l, s, x);
    ThreeKeyMap(r, x, a, y, b2, z, c);
  }

  lemma MergedFromSource(a: Shape, b: Shape, k: string)
    requires a.Object? && b.Object? && k in b.fields
    ensures k in Merge(a, b).fields && Merge(a, b).fields[k] == Optionalize(b.fields[k])
  {
    MergeFields(a, b);
  }

  lemma MergedFromDestination(a: Shape, b: Shape, k: string)
    requires a.Object? && b.Object? && k in a.fields && k !in b.fields
    ensures k in Merge(a, b).fields && Merge(a, b).fields[k] == Optionalize(a.fields[k])
  {
    MergeFields(a, b);
  }

  lemma MergedIndexFromSource(a: Shape, b: Shape, k: IndexKind)
    requires a.Object? && b.Object? && k in b.indexes
    ensures k in Merge(a, b).indexes && Merge(a, b).indexes[k] == b.indexes[k]
  {
    MergeIndexes(a, b);
  }

  lemma MergedIndexFromDestination(a: Shape, b: Shape, k: IndexKind)
    requires a.Object? && b.Object? && k in a.indexes && k !in b.indexes
    ensures k in Merge(a, b).indexes && Merge(a, b).indexes[k] == a.indexes[k]
  {
    MergeIndexes(a, b);
  }

  /** A map with three given keys is the display of its three entries. */
  lemma ThreeKeyMap<K, V>(m: map<K, V>, x: K, vx: V, y: K, vy: V, z: K, vz: V)
    requires m.Keys == {x, y, z} && x in m && y in m && z in m
    requires m[x] == vx && m[y] == vy && m[z] == vz
    ensures m == map[x := vx, y := vy, z := vz]
  {
    var e := map[x := vx, y := vy, z := vz];
    assert m.Keys == e.Keys;
    forall k | k in m ensures m[k] == e[k] {
      if k == z { } else if k == y { } else { }
    }
    MapsEqual(m, e);
  }

  lemma MergeKeepsDestinationOnlyKeys()
    ensures Merge(FooInterface, BarType).fields
         == map["foo" := Req(String), "bar" := Req(Date), "baz" := Req(Boolean)]
  {
    OptionalizePlain(Req(String));
    OptionalizePlain(Req(Date));
    OptionalizePlain(Req(Boolean));
    MergeOverlapping("foo", "bar", "baz", Req(String), Req(Symbol), Req(Date), Req(Boolean),
                     FooInterface.indexes, BarType.indexes);
  }

  /** A symbol-keyed value must be a boolean in the merge, so `'life'` is not
      allowed there. */
  lemma MergedSymbolIndexIsBoolean()
    ensures SymbolIndex in Merge(FooInterface, BarType).indexes
    ensures Members(Merge(FooInterface, BarType).indexes[SymbolIndex]) == {Boolean}
    ensures StrLit("life") !in Members(Merge(FooInterface, BarType).indexes[SymbolIndex])
  {
  }

  /** An override may replace a literal by an unrelated literal. */
  lemma MergeReplacesLiteral()
    ensures Merge(Object(map["stripUndefinedValues" := Req(BoolLit(false))], map[]),
                  Object(map["stripUndefinedValues" := Req(BoolLit(true))], map[]))
         == Object(map["stripUndefinedValues" := Req(BoolLit(true))], map[])
  {
    var r := Merge(Object(map["stripUndefinedValues" := Req(BoolLit(false))], map[]),
                   Object(map["stripUndefinedValues" := Req(BoolLit(true))], map[]));
    OptionalizePlain(Req(BoolLit(true)));
    assert r.fields == map["stripUndefinedValues" := Req(BoolLit(true))];
  }

  function FooWithOptionalKeys(a: string, b: string, c: string, d: string, e: string): Shape
  {
    Object(map[a := Req(String), b := Opt(String), c := Req(Undefined), d := Req(String),
               e := Req(Union({Number, Undefined}))],
           map[StringIndex := Unknown, NumberIndex := Unknown])
  }

  function BarWithOptionalKeys(a: string, b: string, d: string, f: string, g: string): Shape
  {
    Object(map[a := Opt(String), b := Req(String), d := Opt(String),
               f := Req(Union({Number, Undefined})), g := Req(Undefined)],
           map[NumberIndex := Number, SymbolIndex := Boolean])
  }

  predicate Distinct7(a: string, b: string, c: string, d: string, e: string, f: string, g: string)
  {
    a != b && a != c && a != d && a != e && a != f && a != g
    && b != c && b != d && b != e && b != f && b != g
    && c != d && c != e && c != f && c != g
    && d != e && d != f && d != g
    && e != f && e != g
    && f != g
  }

  function MergedOptionalKeys(a: string, b: string, c: string, d: string, e: string, f: string, g: string): Shape
  {
    Merge(FooWithOptionalKeys(a, b, c, d, e), BarWithOptionalKeys(a, b, d, f, g))
  }

  /** The merge has the keys of both types and no other. */
  lemma MergeOptionalKeysKeys(a: string, b: string, c: string, d: string, e: string, f: string, g: string)
    ensures MergedOptionalKeys(a, b, c, d, e, f, g).fields.Keys == {a, b, c, d, e, f, g}
  {
    var foo := FooWithOptionalKeys(a, b, c, d, e);
    var bar := BarWithOptionalKeys(a, b, d, f, g);
    assert foo.fields.Keys == {a, b, c, d, e};
    assert bar.fields.Keys == {a, b, d, f, g};
  }

  /** Shared keys take their optionality from the second type: `a?`, `b`,
      `d?`. */
  lemma MergeOptionalKeysShared(a: string, b: string, c: string, d: string, e: string, f: string, g: string)
    requires Distinct7(a, b, c, d, e, f, g)
    ensures a in MergedOptionalKeys(a, b, c, d, e, f, g).fields
    ensures b in MergedOptionalKeys(a, b, c, d, e, f, g).fields
    ensures d in MergedOptionalKeys(a, b, c, d, e, f, g).fields
    ensures MergedOptionalKeys(a, b, c, d, e, f, g).fields[a] == Opt(String)
    ensures MergedOptionalKeys(a, b, c, d, e, f, g).fields[b] == Req(String)
    ensures MergedOptionalKeys(a, b, c, d, e, f, g).fields[d] == Opt(String)
  {
    var foo := FooWithOptionalKeys(a, b, c, d, e);
    var bar := BarWithOptionalKeys(a, b, d, f, g);
    OptionalizePlain(Opt(String));
    OptionalizePlain(Req(String));
    assert bar.fields[a] == Opt(String) && bar.fields[b] == Req(String) && bar.fields[d] == Opt(String);
    MergedFromSource(foo, bar, a);
    MergedFromSource(foo, bar, b);
    MergedFromSource(foo, bar, d);
  }

  /** Exactly `undefined` stays a required key: `c` and `g`. */
  lemma MergeOptionalKeysUndefined(a: string, b: string, c: string, d: string, e: string, f: string, g: string)
    requires Distinct7(a, b, c, d, e, f, g)
    ensures c in MergedOptionalKeys(a, b, c, d, e, f, g).fields
    ensures g in MergedOptionalKeys(a, b, c, d, e, f, g).fields
    ensures MergedOptionalKeys(a, b, c, d, e, f, g).fields[c] == Req(Undefined)
    ensures MergedOptionalKeys(a, b, c, d, e, f, g).fields[g] == Req(Undefined)
  {
    var foo := FooWithOptionalKeys(a, b, c, d, e);
    var bar := BarWithOptionalKeys(a, b, d, f, g);
    OptionalizeExactlyUndefined(Req(Undefined));
    assert c in foo.fields && c !in bar.fields && foo.fields[c] == Req(Undefined);
    assert g in bar.fields && bar.fields[g] == Req(Undefined);
    MergedFromDestination(foo, bar, c);
    MergedFromSource(foo, bar, g);
  }

  /** A property of type exactly `undefined` is kept. */
  lemma OptionalizeExactlyUndefined(f: Field)
    requires f.value == Undefined
    ensures Optionalize(f) == f
  {
  }

  /** `T | undefined` becomes an optional `T`: `e?` and `f?`. */
  lemma MergeOptionalKeysOrUndefined(a: string, b: string, c: string, d: string, e: string, f: string, g: string)
    requires Distinct7(a, b, c, d, e, f, g)
    ensures e in MergedOptionalKeys(a, b, c, d, e, f, g).fields
    ensures f in MergedOptionalKeys(a, b, c, d, e, f, g).fields
    ensures MergedOptionalKeys(a, b, c, d, e, f, g).fields[e] == Opt(Number)
    ensures MergedOptionalKeys(a, b, c, d, e, f, g).fields[f] == Opt(Number)
  {
    var u := Req(Union({Number, Undefined}));
    OptionalizeOrUndefined(Number, u);
    var foo := FooWithOptionalKeys(a, b, c, d, e);
    var bar := BarWithOptionalKeys(a, b, d, f, g);
    assert e in foo.fields && e !in bar.fields && foo.fields[e] == u;
    assert f in bar.fields && bar.fields[f] == u;
    MergedFromDestination(foo, bar, e);
    MergedFromSource(foo, bar, f);
  }

  lemma MergeOptionalKeysIndexes(a: string, b: string, c: string, d: string, e: string, f: string, g: string)
    ensures MergedOptionalKeys(a, b, c, d, e, f, g).indexes
         == map[NumberIndex := Number, SymbolIndex := Boolean, StringIndex := Unknown]
  {
    var ix := MergedOptionalKeys(a, b, c, d, e, f, g).indexes;
    var expected := map[NumberIndex := Number, SymbolIndex := Boolean, StringIndex := Unknown];
    assert ix.Keys == expected.Keys;
    MapsEqual(ix, expected);
  }

  /** The second `Merge` example with optional keys, with the key names
      `a` to `g`. */
  lemma MergeOptionalKeys()
    ensures MergedOptionalKeys("a", "b", "c", "d", "e", "f", "g").fields.Keys == {"a", "b", "c", "d", "e", "f", "g"}
    ensures MergedOptionalKeys("a", "b", "c", "d", "e", "f", "g").fields["a"] == Opt(String)
    ensures MergedOptionalKeys("a", "b", "c", "d", "e", "f", "g").fields["b"] == Req(String)
    ensures MergedOptionalKeys("a", "b", "c", "d", "e", "f", "g").fields["c"] == Req(Undefined)
    ensures MergedOptionalKeys("a", "b", "c", "d", "e", "f", "g").fields["d"] == Opt(String)
    ensures MergedOptionalKeys("a", "b", "c", "d", "e", "f", "g").fields["e"] == Opt(Number)
    ensures MergedOptionalKeys("a", "b", "c", "d", "e", "f", "g").fields["f"] == Opt(Number)
    ensures MergedOptionalKeys("a", "b", "c", "d", "e", "f", "g").fields["g"] == Req(Undefined)
    ensures MergedOptionalKeys("a", "b", "c", "d", "e", "f", "g").indexes
         == map[NumberIndex := Number, SymbolIndex := Boolean, StringIndex := Unknown]
  {
    assert Distinct7("a", "b", "c", "d", "e", "f", "g");
    MergeOptionalKeysKeys("a", "b", "c", "d", "e", "f", "g");
    MergeOptionalKeysShared("a", "b", "c", "d", "e", "f", "g");
    MergeOptionalKeysUndefined("a", "b", "c", "d", "e", "f", "g");
    MergeOptionalKeysOrUndefined("a", "b", "c", "d", "e", "f", "g");
    MergeOptionalKeysIndexes("a", "b", "c", "d", "e", "f", "g");
  }

  /** `ExampleInterface`: eight index signatures (`any` is `unknown` here)
      and the literal keys `foo: 'bar'` and `qux?: 'baz'`. */
  const ExampleIndexes: map<IndexKind, Shape> :=
    map[StringIndex := Unknown, NumberIndex := Unknown, SymbolIndex := Unknown,
        TemplateIndex("head-${string}") := String, TemplateIndex("${string}-tail") := String,
        TemplateIndex("head-${string}-tail") := String, TemplateIndex("${bigint}") := String,
        TemplateIndex("embedded-${number}") := String]

  function ExampleInterface(foo: string, qux: string): Shape
  {
    Object(map[foo := Req(StrLit("bar")), qux := Opt(StrLit("baz"))], ExampleIndexes)
  }

  /** Every index signature goes; the literal keys stay as they were. */
  lemma RemoveExampleIndexes(foo: string, qux: string)
    ensures RemoveIndexSignature(ExampleInterface(foo, qux))
         == Object(map[foo := Req(StrLit("bar")), qux := Opt(StrLit("baz"))], map[])
  {
  }

  /** `{key: K; value: Exclude<T[K], undefined>}` for each property `K`. */
  function KeyValue(k: string, v: Shape): Shape
  {
    Object(map["key" := Req(StrLit(k)), "value" := Req(Exclude(v, Undefined))], map[])
  }

  /** The same mapping on an index signature: its key is the index's key
      type. */
  function KeepIndex(k: IndexKind, v: Shape): Shape
  {
    var key := match k
      case StringIndex => String
      case NumberIndex => Number
      case SymbolIndex => Symbol
      case TemplateIndex(_) => String;  // a template literal key, as `string`
    Object(map["key" := Req(key), "value" := Req(Exclude(v, Undefined))], map[])
  }

  lemma KeyValueOfLiteral(k: string, x: string)
    ensures KeyValue(k, StrLit(x))
         == Object(map["key" := Req(StrLit(k)), "value" := Req(StrLit(x))], map[])
  {
    assert Members(StrLit(x)) - {Undefined} == {StrLit(x)};
  }

  /** The mapped type of `ExampleInterface` with its index signatures removed:
      `foo: {key: 'foo'; value: 'bar'}` and `qux?: {key: 'qux'; value: 'baz'}`. */
  lemma RemoveMappedExampleIndexes(foo: string, qux: string)
    requires foo != qux
    ensures RemoveIndexSignature(MapProperties(ExampleInterface(foo, qux), KeyValue, KeepIndex))
         == Object(map[foo := Req(KeyValue(foo, StrLit("bar"))), qux := Opt(KeyValue(qux, StrLit("baz")))], map[])
  {
    RemoveIndexSignatureOfMapped(ExampleInterface(foo, qux), KeyValue, KeepIndex);
    RemoveExampleIndexes(foo, qux);
    MapTwoFields(foo, Req(StrLit("bar")), qux, Opt(StrLit("baz")), KeyValue, KeepIndex);
  }

  /** A mapped type over an object with two literal keys and no index signatures. */
  lemma MapTwoFields(k1: string, f1: Field, k2: string, f2: Field,
                     f: (string, Shape) -> Shape, g: (IndexKind, Shape) -> Shape)
    requires k1 != k2
    ensures MapProperties(Object(map[k1 := f1, k2 := f2], map[]), f, g)
         == Object(map[k1 := Field(f1.optional, f(k1, f1.value)),
                       k2 := Field(f2.optional, f(k2, f2.value))], map[])
  {
    var r := MapProperties(Object(map[k1 := f1, k2 := f2], map[]), f, g);
    var expected := map[k1 := Field(f1.optional, f(k1, f1.value)),
                        k2 := Field(f2.optional, f(k2, f2.value))];
    assert r.fields.Keys == expected.Keys;
    assert r.fields[k1] == expected[k1];
    assert r.fields[k2] == expected[k2];
    MapsEqual(r.fields, expected);
    assert r.indexes == map[];
  }

  /** The `RemoveIndexSignature` examples with the keys `foo` and `qux`. */
  lemma RemoveIndexSignatureExamples()
    ensures RemoveIndexSignature(ExampleInterface("foo", "qux"))
         == Object(map["foo" := Req(StrLit("bar")), "qux" := Opt(StrLit("baz"))], map[])
    ensures RemoveIndexSignature(MapProperties(ExampleInterface("foo", "qux"), KeyValue, KeepIndex))
         == Object(map["foo" := Req(Object(map["key" := Req(StrLit("foo")), "value" := Req(StrLit("bar"))], map[])),
                       "qux" := Opt(Object(map["key" := Req(StrLit("qux")), "value" := Req(StrLit("baz"))], map[]))],
                   map[])
  {
    RemoveExampleIndexes("foo", "qux");
    RemoveMappedExampleIndexes("foo", "qux");
    KeyValueOfLiteral("foo", "bar");
    KeyValueOfLiteral("qux", "baz");
  }
}
