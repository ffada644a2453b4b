/** The `Jsonify` and `JsonValue` examples of the type-fest test suite. */
module JsonFixtures {
  import opened Wrappers
  import opened Shapes
  import opened Json
  import opened JsonLaws
  import opened UnionLaws

  function Obj1(k: string, f: Field): Shape { Object(map[k := f], map[]) }
  function Req(v: Shape): Field { Field(false, v) }
  function Opt(v: Shape): Field { Field(true, v) }

  /** `() => any`, with the unconstrained result as `unknown`. */
  const AnyFunction: Shape := Function(Unknown)

  /** `interface A {a: number}` (and `class B {a!: number}`). */
  const A: Shape := Obj1("a", Req(Number))

  lemma PrimitivesAreJson()
    ensures IsJsonValue(Null) && IsJsonValue(BoolLit(false)) && IsJsonValue(NumLit(0.0))
    ensures IsJsonValue(StrLit(""))
  {
  }

  lemma ArraysAreJson()
    ensures IsJsonValue(Array(Never)) && IsJsonValue(Array(Number))
  {
  }

  lemma EmptyObjectIsJson()
    ensures IsJsonValue(EmptyObject)
  {
  }

  lemma JsonifiedAIsJson()
    ensures IsJsonValue(A) && IsJsonValue(Jsonify(A))
  {
    JsonifyIsJson(A);
  }

  lemma NestedIsJson()
    ensures IsJsonValue(Object(map["a" := Req(Object(map["b" := Req(Boolean), "c" := Req(EmptyObject)], map[])),
                                   "d" := Req(Array(Union({EmptyObject, Number, String})))], map[]))
  {
    var inner := Object(map["b" := Req(Boolean), "c" := Req(EmptyObject)], map[]);
    assert IsJsonValue(inner);
    var d := Array(Union({EmptyObject, Number, String}));
    assert IsJsonValue(d);
    var fs := map["a" := Req(inner), "d" := Req(d)];
    assert forall k | k in fs :: IsJsonValue(fs[k].value);
  }

  lemma MixedArrayIsJson()
    ensures IsJsonValue(Array(Union({EmptyObject, Obj1("a", Req(String)), Null, Number})))
  {
  }

  lemma DatesAreNotJson()
    ensures !IsJsonValue(Date) && !IsJsonValue(Array(Date))
  {
  }

  lemma DateFieldsAreNotJson()
    ensures !IsJsonValue(Obj1("a", Req(Date))) && !IsJsonValue(Obj1("a", Opt(Date)))
  {
    DatesAreNotJson();
    FieldNotJson("a", Req(Date));
    FieldNotJson("a", Opt(Date));
  }

  /** An object with a property that is no JSON value is no JSON value. */
  lemma FieldNotJson(k: string, f: Field)
    requires !IsJsonValue(f.value)
    ensures !IsJsonValue(Obj1(k, f))
  {
    assert Obj1(k, f).fields[k] == f;
  }

  lemma UndefinedIsNotJson()
    ensures !IsJsonValue(Undefined) && !IsJsonValue(Union({Number, Undefined}))
    ensures !IsJsonValue(Obj1("a", Req(Union({Number, Undefined}))))
  {
    assert Undefined in Union({Number, Undefined}).members;
    assert Obj1("a", Req(Union({Number, Undefined}))).fields["a"].value == Union({Number, Undefined});
  }

  lemma FunctionsAreNotJson()
    ensures !IsJsonValue(AnyFunction) && !IsJsonValue(Symbol)
    ensures !IsJsonValue(Obj1("a", Opt(AnyFunction)))
  {
    FieldNotJson("a", Opt(AnyFunction));
  }

  lemma DateToJson()
    ensures Jsonify(Date) == String && IsJsonValue(Jsonify(Date))
  {
  }

  lemma ParsedStringifiedX()
    ensures Jsonify(Obj1("a", Req(Date))) == Obj1("a", Req(String))
  {
    DateFieldSerialised();
    JsonifySingleField("a", Req(Date), Req(String));
  }

  lemma DateFieldSerialised()
    ensures JsonifyField(Req(Date)) == Some(Req(String))
  {
    assert !HasFunctionMember(Date) && !HasSkippedMember(Date);
    JsonifyFieldKept(Req(Date), String);
  }

  /** An object with one property other than `toJSON` serialises as that
      property does. */
  lemma JsonifySingleField(k: string, f: Field, g: Field)
    requires k != "toJSON" && JsonifyField(f) == Some(g)
    ensures Jsonify(Obj1(k, f)) == Obj1(k, g)
  {
    JsonifyPlainObject(map[k := f], map[]);
    JsonifyAddField(map[], map[], k, f);
    JsonifyEmptyObject();
  }

  lemma JsonifyEmptyObject()
    ensures JsonifyObject(map[], map[]) == EmptyObject
  {
  }

  /** `class NonJsonWithToJSON`: a `Map` property and a `toJSON()` returning
      `{fixture: Array<[string, number]>}`. */
  const ToJsonResult: Shape := Obj1("fixture", Req(Array(Tuple([String, Number], None))))
  const NonJsonWithToJson: Shape :=
    Object(map["fixture" := Req(MapOf(String, Number)), "toJSON" := Req(Function(ToJsonResult))], map[])

  /** An object with a `toJSON()` method serialises as the method's result. */
  lemma ToJsonUsed(fs: map<string, Field>, ix: map<IndexKind, Shape>, r: Shape)
    requires "toJSON" in fs && fs["toJSON"] == Req(Function(r))
    ensures Jsonify(Object(fs, ix)) == Jsonify(r)
  {
  }

  lemma ToJsonResultIsJson()
    ensures IsJsonValue(ToJsonResult)
  {
    var t := Array(Tuple([String, Number], None));
    assert IsJsonValue(t);
  }

  lemma ToJsonResultNormal()
    ensures Normal(ToJsonResult)
  {
    var t := Array(Tuple([String, Number], None));
    assert Normal(t);
  }

  lemma ToJsonIsUsed()
    ensures Jsonify(NonJsonWithToJson) == ToJsonResult
  {
    ToJsonUsed(NonJsonWithToJson.fields, map[], ToJsonResult);
    ToJsonResultIsJson();
    ToJsonResultNormal();
    JsonifyFixpoint(ToJsonResult);
  }

  lemma ToJsonClassIsNotJson()
    ensures !IsJsonValue(NonJsonWithToJson)
  {
    var fs := NonJsonWithToJson.fields;
    assert "fixture" in fs && fs["fixture"].value == MapOf(String, Number);
  }

  /** `class NonJsonWithInvalidToJSON`: `toJSON()` returns a `Map`. */
  const InvalidToJsonResult: Shape := Obj1("fixture", Req(MapOf(String, Number)))

  lemma InvalidToJsonIsNotJson()
    ensures !IsJsonValue(Object(map["fixture" := Req(MapOf(String, Number)),
                                    "toJSON" := Req(Function(InvalidToJsonResult))], map[]))
    ensures !IsJsonValue(InvalidToJsonResult)
  {
    assert InvalidToJsonResult.fields["fixture"].value == MapOf(String, Number);
    var fs := map["fixture" := Req(MapOf(String, Number)), "toJSON" := Req(Function(InvalidToJsonResult))];
    assert fs["fixture"].value == MapOf(String, Number);
  }

  lemma PlainValuesFail()
    ensures Jsonify(Undefined) == Never && Jsonify(AnyFunction) == Never && Jsonify(Symbol) == Never
    ensures Jsonify(BigInt) == Never
  {
  }

  lemma ArrayMembersBecomeNull()
    ensures Jsonify(Array(Undefined)) == Array(Null)
    ensures Jsonify(Array(AnyFunction)) == Array(Null)
    ensures Jsonify(Array(Symbol)) == Array(Null)
  {
  }

  lemma JsonifyPlainObject(fs: map<string, Field>, ix: map<IndexKind, Shape>)
    requires "toJSON" !in fs
    ensures Jsonify(Object(fs, ix)) == JsonifyObject(fs, ix)
  {
    JsonifyOfObject(fs, ix);
  }

  /** `{keep: string; <k>: <v>}` serialises to `{keep: string}` when `v` cannot
      be serialised. */
  lemma KeepOnly(k: string, v: Shape)
    requires k != "keep" && k != "toJSON"
    requires JsonifyField(Req(v)).None?
    ensures Jsonify(Object(map["keep" := Req(String), k := Req(v)], map[])) == Obj1("keep", Req(String))
  {
    JsonifyPlainObject(map["keep" := Req(String), k := Req(v)], map[]);
    JsonifyAddField(map["keep" := Req(String)], map[], k, Req(v));
    StringFieldKept(Req(String));
    JsonifySingleField("keep", Req(String), Req(String));
    JsonifyPlainObject(map["keep" := Req(String)], map[]);
  }

  lemma ObjectValueUndefinedDropped()
    ensures Jsonify(Object(map["keep" := Req(String), "undefined" := Req(Undefined)], map[]))
         == Obj1("keep", Req(String))
  {
    KeepOnly("undefined", Undefined);
  }

  lemma ObjectValueFunctionDropped()
    ensures Jsonify(Object(map["keep" := Req(String), "fn" := Req(AnyFunction)], map[]))
         == Obj1("keep", Req(String))
  {
    assert HasFunctionMember(AnyFunction) by { assert AnyFunction in Members(AnyFunction); }
    KeepOnly("fn", AnyFunction);
  }

  lemma ObjectValueSymbolDropped()
    ensures Jsonify(Object(map["keep" := Req(String), "symbol" := Req(Symbol)], map[]))
         == Obj1("keep", Req(String))
  {
    KeepOnly("symbol", Symbol);
  }

  lemma SymbolKeysDropped()
    ensures Jsonify(Object(map["keep" := Req(String)], map[SymbolIndex := Number]))
         == Obj1("keep", Req(String))
  {
    JsonifyPlainObject(map["keep" := Req(String)], map[SymbolIndex := Number]);
    SymbolIndexDropped(map["keep" := Req(String)], Number);
    StringFieldKept(Req(String));
    JsonifySingleField("keep", Req(String), Req(String));
    JsonifyPlainObject(map["keep" := Req(String)], map[]);
  }

  /** A symbol index signature is dropped. */
  lemma SymbolIndexDropped(fs: map<string, Field>, v: Shape)
    ensures JsonifyObject(fs, map[SymbolIndex := v]) == JsonifyObject(fs, map[])
  {
  }

  lemma BoxedPrimitivesUnboxed()
    ensures !IsJsonValue(Boxed(BoxedNumber)) && !IsJsonValue(Boxed(BoxedString)) && !IsJsonValue(Boxed(BoxedBoolean))
    ensures Jsonify(Boxed(BoxedNumber)) == Number
    ensures Jsonify(Boxed(BoxedString)) == String
    ensures Jsonify(Boxed(BoxedBoolean)) == Boolean
  {
  }

  lemma TuplesMapElements()
    ensures Jsonify(Tuple([String, Date], None)) == Tuple([String, String], None)
    ensures Jsonify(Tuple([String], Some(Date))) == Tuple([String], Some(String))
  {
    assert Jsonify(Tuple([String, Date], None)).elems == [String, String];
    assert Jsonify(Tuple([String], Some(Date))).elems == [String];
  }

  lemma BuiltinsSerialised()
    ensures Jsonify(BigInt) == Never
    ensures Jsonify(TypedArray) == Object(map[], map[StringIndex := Number])
    ensures Jsonify(PositiveInfinity) == Null && Jsonify(NegativeInfinity) == Null
  {
  }

  lemma CollectionsSerialised()
    ensures Jsonify(MapOf(String, Number)) == EmptyObject
    ensures Jsonify(SetOf(String)) == EmptyObject
  {
  }

  lemma OptionalPrimitiveKept()
    ensures Jsonify(Obj1("a", Opt(String))) == Obj1("a", Opt(String))
  {
    StringFieldKept(Opt(String));
    JsonifySingleField("a", Opt(String), Opt(String));
  }

  /** A `string` property is kept as it is, optional or not. */
  lemma StringFieldKept(f: Field)
    requires f.value == String
    ensures JsonifyField(f) == Some(f)
  {
    assert !HasFunctionMember(String) && !HasSkippedMember(String);
    JsonifyFieldUnchanged(f);
  }

  lemma OptionalFunctionUnionDropped()
    ensures Jsonify(Obj1("a", Opt(Union({String, AnyFunction})))) == EmptyObject
  {
    var v := Union({String, AnyFunction});
    MemberOfUnion({String, AnyFunction}, AnyFunction);
    assert HasFunctionMember(v);
    JsonifyPlainObject(map["a" := Opt(v)], map[]);
    JsonifyAddField(map[], map[], "a", Opt(v));
  }

  /** `x | undefined` serialises like `x`. */
  lemma JsonifyOrUndefined(x: Shape, y: Shape)
    requires !x.Union? && Jsonify(x) == x && y == Union({x, Undefined})
    ensures Jsonify(y) == x
  {
    JsonifyUnion({x, Undefined});
    JsonifyEachPair(x, Undefined);
    assert Jsonify(Undefined) == Never;
    FlattenWithNever(x);
    MkUnionSingle({x, Never}, x);
  }

  /** A required `x | undefined` property becomes an optional `x`. */
  lemma OrUndefinedField(x: Shape, y: Shape)
    requires !x.Union? && !x.Function? && x != Never && Jsonify(x) == x
    requires y == Union({x, Undefined})
    ensures JsonifyField(Req(y)) == Some(Opt(x))
  {
    MemberOfUnion({x, Undefined}, Undefined);
    assert HasSkippedMember(y);
    NoFunctionInFlat({x, Undefined});
    JsonifyOrUndefined(x, y);
    JsonifyFieldKept(Req(y), x);
  }

  /** `{a: x | undefined}` serialises as `{a?: x}`. */
  lemma OrUndefinedObject(x: Shape, y: Shape, o: Shape)
    requires !x.Union? && !x.Function? && x != Never && Jsonify(x) == x
    requires y == Union({x, Undefined}) && o == Obj1("a", Req(y))
    ensures Jsonify(o) == Obj1("a", Opt(x))
  {
    OrUndefinedField(x, y);
    JsonifySingleField("a", Req(y), Opt(x));
  }

  lemma UndefinedMakesOptional()
    ensures Jsonify(Obj1("a", Req(Union({String, Undefined})))) == Obj1("a", Opt(String))
  {
    OrUndefinedObject(String, Union({String, Undefined}), Obj1("a", Req(Union({String, Undefined}))));
  }

  lemma JsonifyEachFixed(rest: set<Shape>)
    requires forall m | m in rest :: Jsonify(m) == m
    ensures JsonifyEach(rest) == rest
  {
  }

  lemma JsonifyEachWithUndefined(rest: set<Shape>)
    requires forall m | m in rest :: Jsonify(m) == m
    ensures JsonifyEach(rest + {Undefined}) == rest + {Never}
  {
    var js := JsonifyEach(rest + {Undefined});
    assert Jsonify(Undefined) == Never;
    assert Never in js;
    forall y | y in js ensures y in rest + {Never} {
      var m :| m in rest + {Undefined} && y == Jsonify(m);
    }
  }

  /** A union of several alternatives that serialise to themselves, with or
      without `undefined`, serialises to the union without `undefined`. */
  lemma JsonifyUnionOfFixed(rest: set<Shape>, ms: set<Shape>)
    requires |rest| >= 2
    requires forall m | m in rest :: !m.Union? && Jsonify(m) == m
    requires ms == rest || ms == rest + {Undefined}
    ensures Jsonify(Union(ms)) == Union(rest)
  {
    JsonifyUnion(ms);
    FlattenOfFixed(rest, ms);
    MkUnionMany(JsonifyEach(ms));
  }

  lemma FlattenOfFixed(rest: set<Shape>, ms: set<Shape>)
    requires forall m | m in rest :: !m.Union? && Jsonify(m) == m
    requires ms == rest || ms == rest + {Undefined}
    ensures Flatten(JsonifyEach(ms)) == rest
  {
    if ms == rest {
      JsonifyEachFixed(rest);
      FlattenFlat(rest);
    } else {
      JsonifyEachWithUndefined(rest);
      FlattenFlatWithNever(rest);
    }
  }

  /** Union alternatives that are neither skipped nor functions. */
  lemma PlainUnion(ms: set<Shape>)
    requires forall m | m in ms :: !m.Union? && !m.Function? && !IsSkipped(m)
    ensures !HasFunctionMember(Union(ms)) && !HasSkippedMember(Union(ms))
  {
    MembersOfFlat(ms);
  }

  /** A property whose type is a union of several plain alternatives that
      serialise to themselves is kept as it is. */
  lemma PlainUnionField(f: Field, ms: set<Shape>)
    requires |ms| >= 2 && f.value == Union(ms)
    requires forall m | m in ms :: !m.Union? && !m.Function? && !IsSkipped(m) && Jsonify(m) == m
    ensures JsonifyField(f) == Some(f)
  {
    PlainUnion(ms);
    JsonifyUnionOfFixed(ms, ms);
    JsonifyFieldUnchanged(f);
  }

  /** A required property of type `x | y | undefined` becomes an optional
      `x | y`. */
  lemma PlainUnionOrUndefinedField(f: Field, rest: set<Shape>, ms: set<Shape>)
    requires |rest| >= 2 && ms == rest + {Undefined} && f == Req(Union(ms))
    requires forall m | m in rest :: !m.Union? && !m.Function? && !IsSkipped(m) && Jsonify(m) == m
    ensures JsonifyField(f) == Some(Opt(Union(rest)))
  {
    JsonifyUnionOfFixed(rest, ms);
    MemberOfUnion(ms, Undefined);
    NoFunctionInFlat(ms);
    JsonifyFieldKept(f, Union(rest));
  }

  lemma AppDataKeptFields()
    ensures JsonifyField(Req(String)) == Some(Req(String))
    ensures JsonifyField(Opt(String)) == Some(Opt(String))
  {
    JsonifyFieldUnchanged(Req(String));
    JsonifyFieldUnchanged(Opt(String));
  }

  lemma AppDataRequiredUnion()
    ensures JsonifyField(Req(Union({Number, Boolean}))) == Some(Req(Union({Number, Boolean})))
  {
    PlainUnionField(Req(Union({Number, Boolean})), {Number, Boolean});
  }

  lemma AppDataOptionalUnion()
    ensures JsonifyField(Opt(Union({Number, String}))) == Some(Opt(Union({Number, String})))
  {
    PlainUnionField(Opt(Union({Number, String})), {Number, String});
  }

  lemma AppDataOptionalStringUndefined()
    ensures JsonifyField(Req(Union({String, Undefined}))) == Some(Opt(String))
  {
    OrUndefinedField(String, Union({String, Undefined}));
  }

  lemma AppDataOptionalUnionUndefined()
    ensures JsonifyField(Req(Union({Number, String, Undefined}))) == Some(Opt(Union({Number, String})))
  {
    PlainUnionOrUndefinedField(Req(Union({Number, String, Undefined})), {Number, String}, {Number, String, Undefined});
  }

  lemma AppDataDroppedFields()
    ensures JsonifyField(Req(AnyFunction)).None? && JsonifyField(Opt(AnyFunction)).None?
    ensures JsonifyField(Req(Union({String, AnyFunction}))).None?
    ensures JsonifyField(Opt(Union({String, AnyFunction}))).None?
    ensures JsonifyField(Req(Union({AnyFunction, Undefined}))).None?
    ensures JsonifyField(Req(Union({String, AnyFunction, Undefined}))).None?
  {
    assert AnyFunction in Members(AnyFunction);
    JsonifyFieldDropped(Req(AnyFunction));
    JsonifyFieldDropped(Opt(AnyFunction));
    FunctionInUnion({String, AnyFunction}, AnyFunction);
    JsonifyFieldDropped(Req(Union({String, AnyFunction})));
    JsonifyFieldDropped(Opt(Union({String, AnyFunction})));
    FunctionInUnion({AnyFunction, Undefined}, AnyFunction);
    JsonifyFieldDropped(Req(Union({AnyFunction, Undefined})));
    FunctionInUnion({String, AnyFunction, Undefined}, AnyFunction);
    JsonifyFieldDropped(Req(Union({String, AnyFunction, Undefined})));
  }

  /** The `AppData` type of issue 424. */
  const AppData: Shape := Object(map[
    "requiredString" := Req(String),
    "requiredUnion" := Req(Union({Number, Boolean})),
    "optionalString" := Opt(String),
    "optionalUnion" := Opt(Union({Number, String})),
    "optionalStringUndefined" := Req(Union({String, Undefined})),
    "optionalUnionUndefined" := Req(Union({Number, String, Undefined})),
    "requiredFunction" := Req(AnyFunction),
    "optionalFunction" := Opt(AnyFunction),
    "requiredFunctionUnion" := Req(Union({String, AnyFunction})),
    "optionalFunctionUnion" := Opt(Union({String, AnyFunction})),
    "optionalFunctionUndefined" := Req(Union({AnyFunction, Undefined})),
    "optionalFunctionUnionUndefined" := Req(Union({String, AnyFunction, Undefined}))], map[])

  const ExpectedAppDataJson: Shape := Object(map[
    "requiredString" := Req(String),
    "requiredUnion" := Req(Union({Number, Boolean})),
    "optionalString" := Opt(String),
    "optionalUnion" := Opt(Union({Number, String})),
    "optionalStringUndefined" := Opt(String),
    "optionalUnionUndefined" := Opt(Union({Number, String}))], map[])

  /** Adding a property that serialises to `g` adds `g` to the serialised
      properties. */
  lemma AddKept(fs: map<string, Field>, gs: map<string, Field>, k: string, f: Field, g: Field)
    requires k !in fs && JsonifyObject(fs, map[]).fields == gs && JsonifyField(f) == Some(g)
    ensures JsonifyObject(fs[k := f], map[]).fields == gs[k := g]
  {
    JsonifyAddField(fs, map[], k, f);
  }

  /** Adding a property that is dropped leaves the serialised properties as
      they were. */
  lemma AddDropped(fs: map<string, Field>, gs: map<string, Field>, k: string, f: Field)
    requires k !in fs && JsonifyObject(fs, map[]).fields == gs && JsonifyField(f).None?
    ensures JsonifyObject(fs[k := f], map[]).fields == gs
  {
    JsonifyAddField(fs, map[], k, f);
  }

  /** An object type with twelve property names `ks` and property types
      `fs`, in the order of `AppData`. */
  function AppDataOf(ks: seq<string>, fs: seq<Field>): map<string, Field>
    requires |ks| == 12 && |fs| == 12
  {
    map[ks[0] := fs[0], ks[1] := fs[1], ks[2] := fs[2], ks[3] := fs[3],
        ks[4] := fs[4], ks[5] := fs[5]][ks[6] := fs[6]][ks[7] := fs[7]][
        ks[8] := fs[8]][ks[9] := fs[9]][ks[10] := fs[10]][ks[11] := fs[11]]
  }

  /** The first six of those properties, with types `gs`. */
  function ExpectedOf(ks: seq<string>, gs: seq<Field>): map<string, Field>
    requires |ks| == 12 && |gs| == 6
  {
    map[ks[0] := gs[0], ks[1] := gs[1], ks[2] := gs[2], ks[3] := gs[3], ks[4] := gs[4], ks[5] := gs[5]]
  }

  /** Six properties that serialise to `gs`, added to an empty object. */
  lemma KeepSix(ks: seq<string>, fs: seq<Field>, gs: seq<Field>)
    requires |ks| == 12 && |fs| == 12 && |gs| == 6
    requires ks[1] !in {ks[0]}
    requires ks[2] !in {ks[0], ks[1]}
    requires ks[3] !in {ks[0], ks[1], ks[2]}
    requires ks[4] !in {ks[0], ks[1], ks[2], ks[3]}
    requires ks[5] !in {ks[0], ks[1], ks[2], ks[3], ks[4]}
    requires JsonifyField(fs[0]) == Some(gs[0])
    requires JsonifyField(fs[1]) == Some(gs[1])
    requires JsonifyField(fs[2]) == Some(gs[2])
    requires JsonifyField(fs[3]) == Some(gs[3])
    requires JsonifyField(fs[4]) == Some(gs[4])
    requires JsonifyField(fs[5]) == Some(gs[5])
    ensures JsonifyObject(map[ks[0] := fs[0], ks[1] := fs[1], ks[2] := fs[2], ks[3] := fs[3],
                              ks[4] := fs[4], ks[5] := fs[5]], map[]).fields == ExpectedOf(ks, gs)
  {
    var e0: map<string, Field> := map[];
    JsonifyEmptyObject();
    var m1 := map[ks[0] := fs[0]];
    var e1 := map[ks[0] := gs[0]];
    AddKept(map[], e0, ks[0], fs[0], gs[0]);
    var m2 := m1[ks[1] := fs[1]];
    var e2 := e1[ks[1] := gs[1]];
    AddKept(m1, e1, ks[1], fs[1], gs[1]);
    var m3 := m2[ks[2] := fs[2]];
    var e3 := e2[ks[2] := gs[2]];
    AddKept(m2, e2, ks[2], fs[2], gs[2]);
    var m4 := m3[ks[3] := fs[3]];
    var e4 := e3[ks[3] := gs[3]];
    AddKept(m3, e3, ks[3], fs[3], gs[3]);
    var m5 := m4[ks[4] := fs[4]];
    var e5 := e4[ks[4] := gs[4]];
    AddKept(m4, e4, ks[4], fs[4], gs[4]);
    var m6 := m5[ks[5] := fs[5]];
    var e6 := e5[ks[5] := gs[5]];
    AddKept(m5, e5, ks[5], fs[5], gs[5]);
  }

  /** Six properties that are dropped, added to an object `m` that
      serialises to `e`. */
  lemma DropSix(m: map<string, Field>, e: map<string, Field>, ks: seq<string>, fs: seq<Field>)
    requires |ks| == 12 && |fs| == 12
    requires {ks[6], ks[7], ks[8], ks[9], ks[10], ks[11]} !! m.Keys
    requires ks[7] !in {ks[6]}
    requires ks[8] !in {ks[6], ks[7]}
    requires ks[9] !in {ks[6], ks[7], ks[8]}
    requires ks[10] !in {ks[6], ks[7], ks[8], ks[9]}
    requires ks[11] !in {ks[6], ks[7], ks[8], ks[9], ks[10]}
    requires JsonifyField(fs[6]).None?
    requires JsonifyField(fs[7]).None?
    requires JsonifyField(fs[8]).None?
    requires JsonifyField(fs[9]).None?
    requires JsonifyField(fs[10]).None?
    requires JsonifyField(fs[11]).None?
    requires JsonifyObject(m, map[]).fields == e
    ensures JsonifyObject(m[ks[6] := fs[6]][ks[7] := fs[7]][ks[8] := fs[8]][ks[9] := fs[9]][
                            ks[10] := fs[10]][ks[11] := fs[11]], map[]).fields == e
  {
    var m6 := m;
    var m7 := m6[ks[6] := fs[6]];
    AddDropped(m6, e, ks[6], fs[6]);
    var m8 := m7[ks[7] := fs[7]];
    AddDropped(m7, e, ks[7], fs[7]);
    var m9 := m8[ks[8] := fs[8]];
    AddDropped(m8, e, ks[8], fs[8]);
    var m10 := m9[ks[9] := fs[9]];
    AddDropped(m9, e, ks[9], fs[9]);
    var m11 := m10[ks[10] := fs[10]];
    AddDropped(m10, e, ks[10], fs[10]);
    AddDropped(m11, e, ks[11], fs[11]);
  }

  /** The last six property names of `AppDataOf` are not among the first
      six. */
  lemma LastSixFresh(ks: seq<string>, fs: seq<Field>)
    requires |ks| == 12 && |fs| == 12
    requires ks[1] !in {ks[0]}
    requires ks[2] !in {ks[0], ks[1]}
    requires ks[3] !in {ks[0], ks[1], ks[2]}
    requires ks[4] !in {ks[0], ks[1], ks[2], ks[3]}
    requires ks[5] !in {ks[0], ks[1], ks[2], ks[3], ks[4]}
    requires ks[6] !in {ks[0], ks[1], ks[2], ks[3], ks[4], ks[5]}
    requires ks[7] !in {ks[0], ks[1], ks[2], ks[3], ks[4], ks[5], ks[6]}
    requires ks[8] !in {ks[0], ks[1], ks[2], ks[3], ks[4], ks[5], ks[6], ks[7]}
    requires ks[9] !in {ks[0], ks[1], ks[2], ks[3], ks[4], ks[5], ks[6], ks[7], ks[8]}
    requires ks[10] !in {ks[0], ks[1], ks[2], ks[3], ks[4], ks[5], ks[6], ks[7], ks[8], ks[9]}
    requires ks[11] !in {ks[0], ks[1], ks[2], ks[3], ks[4], ks[5], ks[6], ks[7], ks[8], ks[9], ks[10]}
    ensures {ks[6], ks[7], ks[8], ks[9], ks[10], ks[11]}
        !! map[ks[0] := fs[0], ks[1] := fs[1], ks[2] := fs[2], ks[3] := fs[3], ks[4] := fs[4], ks[5] := fs[5]].Keys
  {
  }

  /** When the first six properties serialise to `gs` and the last six are
      dropped, the object serialises to the six kept properties. */
  lemma AppDataShapeJsonified(ks: seq<string>, fs: seq<Field>, gs: seq<Field>)
    requires |ks| == 12 && |fs| == 12 && |gs| == 6
    requires ks[1] !in {ks[0]}
    requires ks[2] !in {ks[0], ks[1]}
    requires ks[3] !in {ks[0], ks[1], ks[2]}
    requires ks[4] !in {ks[0], ks[1], ks[2], ks[3]}
    requires ks[5] !in {ks[0], ks[1], ks[2], ks[3], ks[4]}
    requires ks[6] !in {ks[0], ks[1], ks[2], ks[3], ks[4], ks[5]}
    requires ks[7] !in {ks[0], ks[1], ks[2], ks[3], ks[4], ks[5], ks[6]}
    requires ks[8] !in {ks[0], ks[1], ks[2], ks[3], ks[4], ks[5], ks[6], ks[7]}
    requires ks[9] !in {ks[0], ks[1], ks[2], ks[3], ks[4], ks[5], ks[6], ks[7], ks[8]}
    requires ks[10] !in {ks[0], ks[1], ks[2], ks[3], ks[4], ks[5], ks[6], ks[7], ks[8], ks[9]}
    requires ks[11] !in {ks[0], ks[1], ks[2], ks[3], ks[4], ks[5], ks[6], ks[7], ks[8], ks[9], ks[10]}
    requires JsonifyField(fs[0]) == Some(gs[0])
    requires JsonifyField(fs[1]) == Some(gs[1])
    requires JsonifyField(fs[2]) == Some(gs[2])
    requires JsonifyField(fs[3]) == Some(gs[3])
    requires JsonifyField(fs[4]) == Some(gs[4])
    requires JsonifyField(fs[5]) == Some(gs[5])
    requires JsonifyField(fs[6]).None?
    requires JsonifyField(fs[7]).None?
    requires JsonifyField(fs[8]).None?
    requires JsonifyField(fs[9]).None?
    requires JsonifyField(fs[10]).None?
    requires JsonifyField(fs[11]).None?
    ensures JsonifyObject(AppDataOf(ks, fs), map[]).fields == ExpectedOf(ks, gs)
  {
    var m := map[ks[0] := fs[0], ks[1] := fs[1], ks[2] := fs[2], ks[3] := fs[3], ks[4] := fs[4], ks[5] := fs[5]];
    KeepSix(ks, fs, gs);
    LastSixFresh(ks, fs);
    DropSix(m, ExpectedOf(ks, gs), ks, fs);
    assert AppDataOf(ks, fs) == m[ks[6] := fs[6]][ks[7] := fs[7]][ks[8] := fs[8]][ks[9] := fs[9]][ks[10] := fs[10]][ks[11] := fs[11]];
  }

  const AppDataKeys: seq<string> := [
    "requiredString", "requiredUnion", "optionalString", "optionalUnion",
    "optionalStringUndefined", "optionalUnionUndefined", "requiredFunction", "optionalFunction",
    "requiredFunctionUnion", "optionalFunctionUnion", "optionalFunctionUndefined",
    "optionalFunctionUnionUndefined"]

  /** The twelve property names of `AppData` are distinct. */
  lemma AppDataKeysDistinct(ks: seq<string>)
    requires ks == AppDataKeys
    ensures ks[1] !in {ks[0]}
    ensures ks[2] !in {ks[0], ks[1]}
    ensures ks[3] !in {ks[0], ks[1], ks[2]}
    ensures ks[4] !in {ks[0], ks[1], ks[2], ks[3]}
    ensures ks[5] !in {ks[0], ks[1], ks[2], ks[3], ks[4]}
    ensures ks[6] !in {ks[0], ks[1], ks[2], ks[3], ks[4], ks[5]}
    ensures ks[7] !in {ks[0], ks[1], ks[2], ks[3], ks[4], ks[5], ks[6]}
    ensures ks[8] !in {ks[0], ks[1], ks[2], ks[3], ks[4], ks[5], ks[6], ks[7]}
    ensures ks[9] !in {ks[0], ks[1], ks[2], ks[3], ks[4], ks[5], ks[6], ks[7], ks[8]}
    ensures ks[10] !in {ks[0], ks[1], ks[2], ks[3], ks[4], ks[5], ks[6], ks[7], ks[8], ks[9]}
    ensures ks[11] !in {ks[0], ks[1], ks[2], ks[3], ks[4], ks[5], ks[6], ks[7], ks[8], ks[9], ks[10]}
  {
  }

  /** The property types of `AppData` and of `ExpectedAppDataJson`, in order. */
  const AppDataTypes: seq<Field> := [
    Req(String), Req(Union({Number, Boolean})), Opt(String), Opt(Union({Number, String})),
    Req(Union({String, Undefined})), Req(Union({Number, String, Undefined})),
    Req(AnyFunction), Opt(AnyFunction), Req(Union({String, AnyFunction})),
    Opt(Union({String, AnyFunction})), Req(Union({AnyFunction, Undefined})),
    Req(Union({String, AnyFunction, Undefined}))]

  const ExpectedTypes: seq<Field> := [
    Req(String), Req(Union({Number, Boolean})), Opt(String), Opt(Union({Number, String})),
    Opt(String), Opt(Union({Number, String}))]

  /** Property by property: the first six serialise to the expected types,
      the last six are dropped. */
  lemma AppDataTypesJsonified(fs: seq<Field>, gs: seq<Field>)
    requires fs == AppDataTypes && gs == ExpectedTypes
    ensures JsonifyField(fs[0]) == Some(gs[0])
    ensures JsonifyField(fs[1]) == Some(gs[1])
    ensures JsonifyField(fs[2]) == Some(gs[2])
    ensures JsonifyField(fs[3]) == Some(gs[3])
    ensures JsonifyField(fs[4]) == Some(gs[4])
    ensures JsonifyField(fs[5]) == Some(gs[5])
    ensures JsonifyField(fs[6]).None?
    ensures JsonifyField(fs[7]).None?
    ensures JsonifyField(fs[8]).None?
    ensures JsonifyField(fs[9]).None?
    ensures JsonifyField(fs[10]).None?
    ensures JsonifyField(fs[11]).None?
  {
    assert fs[0] == Req(String);
    assert fs[1] == Req(Union({Number, Boolean}));
    assert fs[2] == Opt(String);
    assert fs[3] == Opt(Union({Number, String}));
    assert fs[4] == Req(Union({String, Undefined}));
    assert fs[5] == Req(Union({Number, String, Undefined}));
    assert fs[6] == Req(AnyFunction);
    assert fs[7] == Opt(AnyFunction);
    assert fs[8] == Req(Union({String, AnyFunction}));
    assert fs[9] == Opt(Union({String, AnyFunction}));
    assert fs[10] == Req(Union({AnyFunction, Undefined}));
    assert fs[11] == Req(Union({String, AnyFunction, Undefined}));
    assert gs[0] == Req(String);
    assert gs[1] == Req(Union({Number, Boolean}));
    assert gs[2] == Opt(String);
    assert gs[3] == Opt(Union({Number, String}));
    assert gs[4] == Opt(String);
    assert gs[5] == Opt(Union({Number, String}));
    AppDataKeptFields();
    AppDataRequiredUnion();
    AppDataOptionalUnion();
    AppDataOptionalStringUndefined();
    AppDataOptionalUnionUndefined();
    AppDataDroppedFields();
  }

  /** `AppData` and `ExpectedAppDataJson` are the two shapes above. */
  lemma AppDataIsOf()
    ensures AppData.fields == AppDataOf(AppDataKeys, AppDataTypes)
    ensures ExpectedAppDataJson.fields == ExpectedOf(AppDataKeys, ExpectedTypes)
    ensures "toJSON" !in AppData.fields
  {
  }

  /** `Jsonify<AppData>` is exactly `ExpectedAppDataJson`: plain properties
      kept, properties that may be `undefined` made optional, properties that
      may be functions dropped. */
  lemma AppDataJsonified()
    ensures Jsonify(AppData) == ExpectedAppDataJson
  {
    AppDataIsOf();
    JsonifyPlainObject(AppData.fields, map[]);
    AppDataPropertiesJsonified(AppDataKeys, AppDataTypes, ExpectedTypes);
  }

  lemma AppDataPropertiesJsonified(ks: seq<string>, fs: seq<Field>, gs: seq<Field>)
    requires ks == AppDataKeys && fs == AppDataTypes && gs == ExpectedTypes
    ensures JsonifyObject(AppDataOf(ks, fs), map[]).fields == ExpectedOf(ks, gs)
  {
    AppDataKeysDistinct(ks);
    AppDataTypesJsonified(fs, gs);
    AppDataShapeJsonified(ks, fs, gs);
  }

  /** The `Geometry` interface: its serialisation is itself. */
  const Geometry: Shape := Object(map[
    "type" := Req(Union({StrLit("Point"), StrLit("Polygon")})),
    "coordinates" := Req(Tuple([Number, Number], None))], map[])

  /** A union of two different string literals is a normal JSON value. */
  lemma LiteralPairIsJson(a: string, b: string)
    requires a != b
    ensures IsJsonValue(Union({StrLit(a), StrLit(b)})) && Normal(Union({StrLit(a), StrLit(b)}))
  {
    assert |{StrLit(a), StrLit(b)}| == 2;
  }

  /** A pair of numbers is a normal JSON value. */
  lemma NumberPairIsJson()
    ensures IsJsonValue(Tuple([Number, Number], None)) && Normal(Tuple([Number, Number], None))
  {
  }

  /** An object type with two required properties whose types are normal
      JSON values is a normal JSON value. */
  lemma TwoPropertiesAreJson(k1: string, v1: Shape, k2: string, v2: Shape)
    requires IsJsonValue(v1) && Normal(v1) && v1 != Never
    requires IsJsonValue(v2) && Normal(v2) && v2 != Never
    ensures IsJsonValue(Object(map[k1 := Req(v1), k2 := Req(v2)], map[]))
    ensures Normal(Object(map[k1 := Req(v1), k2 := Req(v2)], map[]))
  {
  }

  lemma GeometryJsonified()
    ensures Jsonify(Geometry) == Geometry
  {
    LiteralPairIsJson("Point", "Polygon");
    NumberPairIsJson();
    TwoPropertiesAreJson("type", Union({StrLit("Point"), StrLit("Polygon")}), "coordinates", Tuple([Number, Number], None));
    JsonifyFixpoint(Geometry);
  }


}
