/** The `ConditionalSimplify` examples of the type-fest test suite. */
module SimplifyFixtures {
  import opened Shapes
  import opened Simplification
  import opened SimplifyLaws

  function Req(v: Shape): Field { Field(false, v) }

  /** Width subtyping with identical property types: every property of `t`
      is in `s` with the same type, and required in `s` if it is in `t`. */
  predicate ExtendsObject(s: Shape, t: Shape)
  {
    s.Object? && t.Object?
    && forall k | k in t.fields ::
         k in s.fields && s.fields[k].value == t.fields[k].value
         && (s.fields[k].optional ==> t.fields[k].optional)
  }

  /** `T extends Function`. */
  predicate IsFunctionType(s: Shape) { s.Function? }

  const Position: Shape := Object(map["top" := Req(Number), "left" := Req(Number)], map[])
  const Size: Shape := Object(map["width" := Req(Number), "height" := Req(Number)], map[])
  const PositionAndSize: Shape := Intersection({Position, Size})
  const PositionAndSizeSimplified: Shape :=
    Object(map["top" := Req(Number), "left" := Req(Number), "width" := Req(Number), "height" := Req(Number)], map[])

  /** `T extends Function | Size`. */
  predicate IsFunctionOrSize(s: Shape) { s.Function? || ExtendsObject(s, Size) }

  /** Two object types of two properties each, all four keys different. */
  lemma CombineTwoPairs(k1: string, f1: Field, k2: string, f2: Field,
                        k3: string, f3: Field, k4: string, f4: Field)
    requires k1 != k2 && k1 != k3 && k1 != k4 && k2 != k3 && k2 != k4 && k3 != k4
    ensures Combine({Object(map[k1 := f1, k2 := f2], map[]), Object(map[k3 := f3, k4 := f4], map[])})
         == Object(map[k1 := f1, k2 := f2, k3 := f3, k4 := f4], map[])
  {
    var a := Object(map[k1 := f1, k2 := f2], map[]);
    var b := Object(map[k3 := f3, k4 := f4], map[]);
    assert k1 in a.fields && k1 !in b.fields;
    CombineDisjoint(a, b);
    PairsJoined(k1, f1, k2, f2, k3, f3, k4, f4);
    NoIndexesJoined(map[]);
  }

  lemma PairsJoined<V>(k1: string, v1: V, k2: string, v2: V, k3: string, v3: V, k4: string, v4: V)
    requires k1 != k2 && k1 != k3 && k1 != k4 && k2 != k3 && k2 != k4 && k3 != k4
    ensures map[k1 := v1, k2 := v2] + map[k3 := v3, k4 := v4] == map[k1 := v1, k2 := v2, k3 := v3, k4 := v4]
  {
    var m := map[k1 := v1, k2 := v2] + map[k3 := v3, k4 := v4];
    var expected := map[k1 := v1, k2 := v2, k3 := v3, k4 := v4];
    assert m.Keys == expected.Keys;
    MapsEqual(m, expected);
  }

  lemma NoIndexesJoined(ix: map<IndexKind, Shape>)
    requires ix == map[]
    ensures ix + ix == ix
  {
    MapsEqual(ix + ix, ix);
  }

  lemma PositionAndSizeCombined()
    ensures Combine({Position, Size}) == PositionAndSizeSimplified
  {
    CombineTwoPairs("top", Req(Number), "left", Req(Number), "width", Req(Number), "height", Req(Number));
  }

  /** `Position & Size` simplifies to one object type with all four
      properties. */
  lemma SimplifyPositionAndSize()
    ensures Simplify(PositionAndSize, NoneExcluded, AllIncluded) == PositionAndSizeSimplified
  {
    PositionAndSizeCombined();
  }

  /** `(type: string) => string`; parameter types are not modelled. */
  const SomeFunction: Shape := Function(String)

  /** Without an exclusion a function simplifies to `{}`; with `Function`
      excluded it is kept. */
  lemma SimplifySomeFunction()
    ensures Simplify(SomeFunction, NoneExcluded, AllIncluded) == EmptyObject
    ensures Simplify(SomeFunction, NoneExcluded, AllIncluded) != SomeFunction
    ensures Simplify(SomeFunction, IsFunctionType, AllIncluded) == SomeFunction
  {
    DeepLosesFunction(String);
    DeepKeepsExcludedFunction(String, IsFunctionType, AllIncluded);
  }

  /** An object type with a single property. */
  function Obj1(k: string, f: Field): Shape { Object(map[k := f], map[]) }

  /** The deep simplification of an object type with one property that
      passes the filters. */
  lemma DeepOfObj1(k: string, f: Field, v: Shape, ex: Filter, inc: Filter)
    requires !ex(Obj1(k, f)) && inc(Obj1(k, f))
    requires Deep(f.value, ex, inc) == v
    ensures Deep(Obj1(k, f), ex, inc) == Obj1(k, Field(f.optional, v))
  {
    DeepOfObjectIs(map[k := f], map[], map[k := Field(f.optional, v)], map[], ex, inc);
  }

  lemma PositionAndSizeSimplifiedSettled(ex: Filter, inc: Filter)
    ensures Settled(PositionAndSizeSimplified, ex, inc) && Normal(PositionAndSizeSimplified)
  {
    var fs := PositionAndSizeSimplified.fields;
    forall k | k in fs ensures Settled(fs[k].value, ex, inc) && fs[k].value == Number {
    }
  }

  /** The deep simplification of `Position & Size`. */
  lemma DeepPositionAndSize()
    ensures Deep(PositionAndSize, NoneExcluded, AllIncluded) == PositionAndSizeSimplified
  {
    PositionAndSizeCombined();
    DeepOfIntersection({Position, Size}, NoneExcluded, AllIncluded);
    PositionAndSizeSimplifiedSettled(NoneExcluded, AllIncluded);
    DeepFixpoint(PositionAndSizeSimplified, NoneExcluded, AllIncluded);
  }

  const SomeNode: Shape :=
    Object(map["parent" := Req(PositionAndSize),
               "childs" := Req(Array(Obj1("parent", Req(PositionAndSize))))], map[])

  const SomeNodeSimplified: Shape :=
    Object(map["parent" := Req(PositionAndSizeSimplified),
               "childs" := Req(Array(Obj1("parent", Req(PositionAndSizeSimplified))))], map[])

  /** The deep variant simplifies property types and array elements. */
  lemma DeepSomeNode()
    ensures Deep(SomeNode, NoneExcluded, AllIncluded) == SomeNodeSimplified
  {
    var child := Obj1("parent", Req(PositionAndSize));
    var childSimplified := Obj1("parent", Req(PositionAndSizeSimplified));
    DeepPositionAndSize();
    DeepOfObj1("parent", Req(PositionAndSize), PositionAndSizeSimplified, NoneExcluded, AllIncluded);
    DeepOfArray(child, childSimplified, NoneExcluded, AllIncluded);
    DeepOfObj2("parent", Req(PositionAndSize), PositionAndSizeSimplified,
               "childs", Req(Array(child)), Array(childSimplified), NoneExcluded, AllIncluded);
  }

  /** The deep simplification of an array type that passes the filters. */
  lemma DeepOfArray(e: Shape, v: Shape, ex: Filter, inc: Filter)
    requires !ex(Array(e)) && inc(Array(e)) && Deep(e, ex, inc) == v
    ensures Deep(Array(e), ex, inc) == Array(v)
  {
  }

  /** The deep simplification of an object type with two properties that
      passes the filters. */
  lemma DeepOfObj2(k1: string, f1: Field, v1: Shape, k2: string, f2: Field, v2: Shape, ex: Filter, inc: Filter)
    requires k1 != k2
    requires !ex(Object(map[k1 := f1, k2 := f2], map[])) && inc(Object(map[k1 := f1, k2 := f2], map[]))
    requires Deep(f1.value, ex, inc) == v1 && Deep(f2.value, ex, inc) == v2
    ensures Deep(Object(map[k1 := f1, k2 := f2], map[]), ex, inc)
         == Object(map[k1 := Field(f1.optional, v1), k2 := Field(f2.optional, v2)], map[])
  {
    var fs := map[k1 := f1, k2 := f2];
    var fs2 := map[k1 := Field(f1.optional, v1), k2 := Field(f2.optional, v2)];
    DeepFields2(fs, fs2, k1, f1, v1, k2, f2, v2, ex, inc);
    DeepOfObjectIs(fs, map[], fs2, map[], ex, inc);
  }

  lemma DeepFields2(fs: map<string, Field>, fs2: map<string, Field>,
                    k1: string, f1: Field, v1: Shape, k2: string, f2: Field, v2: Shape, ex: Filter, inc: Filter)
    requires k1 != k2
    requires fs == map[k1 := f1, k2 := f2]
    requires fs2 == map[k1 := Field(f1.optional, v1), k2 := Field(f2.optional, v2)]
    requires Deep(f1.value, ex, inc) == v1 && Deep(f2.value, ex, inc) == v2
    ensures fs2.Keys == fs.Keys
    ensures forall k | k in fs :: fs2[k] == Field(fs[k].optional, Deep(fs[k].value, ex, inc))
  {
    SameKeys2(fs, fs2, k1, f1, Field(f1.optional, v1), k2, f2, Field(f2.optional, v2));
    forall k | k in fs ensures fs2[k] == Field(fs[k].optional, Deep(fs[k].value, ex, inc)) {
      if k == k1 { assert fs[k] == f1; } else { assert fs[k] == f2; }
    }
  }

  lemma SameKeys2<A, B>(m: map<string, A>, n: map<string, B>, k1: string, a1: A, b1: B, k2: string, a2: A, b2: B)
    requires m == map[k1 := a1, k2 := a2] && n == map[k1 := b1, k2 := b2]
    ensures m.Keys == n.Keys == {k1, k2}
  {
  }

  /** `interface MovablePosition extends Position {move(position: Position): Position}`. */
  const MovablePosition: Shape :=
    Object(map["top" := Req(Number), "left" := Req(Number), "move" := Req(Function(Position))], map[])

  const PositionAndSizeOfMovable: Shape :=
    Object(map["position" := Req(MovablePosition), "size" := Req(Size)], map[])

  const MovableCollection: Shape :=
    Object(map["position" := Req(MovablePosition),
               "top" := Req(PositionAndSizeOfMovable),
               "left" := Req(PositionAndSizeOfMovable)], map[])

  /** `T extends MovableCollection | Position`. */
  predicate IsMovableCollectionOrPosition(s: Shape)
  {
    ExtendsObject(s, MovableCollection) || ExtendsObject(s, Position)
  }

  /** A property whose type is settled, normal and not `never`. */
  ghost predicate FieldSettled(f: Field, ex: Filter, inc: Filter)
  {
    Settled(f.value, ex, inc) && f.value != Never && Normal(f.value)
  }

  /** An object type whose property types are settled and normal is too. */
  lemma ObjectSettled(fs: map<string, Field>, ex: Filter, inc: Filter)
    requires forall k | k in fs :: FieldSettled(fs[k], ex, inc)
    ensures Settled(Object(fs, map[]), ex, inc) && Normal(Object(fs, map[]))
  {
  }

  lemma ObjectSettled2(k1: string, f1: Field, k2: string, f2: Field, ex: Filter, inc: Filter)
    requires FieldSettled(f1, ex, inc) && FieldSettled(f2, ex, inc)
    ensures Settled(Object(map[k1 := f1, k2 := f2], map[]), ex, inc)
    ensures Normal(Object(map[k1 := f1, k2 := f2], map[]))
  {
    var fs := map[k1 := f1, k2 := f2];
    forall k | k in fs ensures FieldSettled(fs[k], ex, inc) {
      if k == k2 { assert fs[k] == f2; } else { assert fs[k] == f1; }
    }
    ObjectSettled(fs, ex, inc);
  }

  lemma ObjectSettled3(k1: string, f1: Field, k2: string, f2: Field, k3: string, f3: Field,
                       ex: Filter, inc: Filter)
    requires FieldSettled(f1, ex, inc) && FieldSettled(f2, ex, inc) && FieldSettled(f3, ex, inc)
    ensures Settled(Object(map[k1 := f1, k2 := f2, k3 := f3], map[]), ex, inc)
    ensures Normal(Object(map[k1 := f1, k2 := f2, k3 := f3], map[]))
  {
    var fs := map[k1 := f1, k2 := f2, k3 := f3];
    forall k | k in fs ensures FieldSettled(fs[k], ex, inc) {
      if k == k3 { assert fs[k] == f3; }
      else if k == k2 { assert fs[k] == f2; }
      else { assert fs[k] == f1; }
    }
    ObjectSettled(fs, ex, inc);
  }

  lemma NumberSettled(ex: Filter, inc: Filter)
    ensures FieldSettled(Req(Number), ex, inc)
  {
  }

  /** An excluded method is left as it is. */
  lemma MethodSettled(p: Shape, ex: Filter, inc: Filter)
    requires ex(Function(p)) && Normal(p)
    ensures FieldSettled(Req(Function(p)), ex, inc)
  {
  }

  /** With `Position => Position` excluded, nothing in `MovablePosition`
      is left to simplify. */
  lemma MovablePositionSettled(ex: Filter, inc: Filter)
    requires ex(Function(Position))
    ensures Settled(MovablePosition, ex, inc) && Normal(MovablePosition)
  {
    NumberSettled(ex, inc);
    ObjectSettled2("top", Req(Number), "left", Req(Number), ex, inc);
    MethodSettled(Position, ex, inc);
    ObjectSettled3("top", Req(Number), "left", Req(Number), "move", Req(Function(Position)), ex, inc);
  }

  lemma SizeSettled(ex: Filter, inc: Filter)
    ensures Settled(Size, ex, inc) && Normal(Size)
  {
    NumberSettled(ex, inc);
    ObjectSettled2("width", Req(Number), "height", Req(Number), ex, inc);
  }

  lemma PositionAndSizeOfMovableSettled(ex: Filter, inc: Filter)
    requires ex(Function(Position))
    ensures Settled(PositionAndSizeOfMovable, ex, inc) && Normal(PositionAndSizeOfMovable)
  {
    MovablePositionSettled(ex, inc);
    SizeSettled(ex, inc);
    ObjectSettled2("position", Req(MovablePosition), "size", Req(Size), ex, inc);
  }

  lemma MovableCollectionSettled(ex: Filter, inc: Filter)
    requires ex(Function(Position))
    ensures Settled(MovableCollection, ex, inc) && Normal(MovableCollection)
  {
    MovablePositionSettled(ex, inc);
    PositionAndSizeOfMovableSettled(ex, inc);
    ObjectSettled3("position", Req(MovablePosition), "top", Req(PositionAndSizeOfMovable),
                   "left", Req(PositionAndSizeOfMovable), ex, inc);
  }

  /** With functions excluded the deep simplification keeps the whole
      collection, methods included. */
  lemma MovableCollectionKept(ex: Filter, inc: Filter)
    requires ex(Function(Position))
    ensures Deep(MovableCollection, ex, inc) == MovableCollection
  {
    MovableCollectionSettled(ex, inc);
    DeepFixpoint(MovableCollection, ex, inc);
  }

  /** The three exclusion and inclusion settings of the examples: `Function`,
      `Function | Size`, and `Function` with `MovableCollection | Position`
      included. */
  lemma MovableCollectionExamples()
    ensures Deep(MovableCollection, IsFunctionType, AllIncluded) == MovableCollection
    ensures Deep(MovableCollection, IsFunctionOrSize, AllIncluded) == MovableCollection
    ensures Deep(MovableCollection, IsFunctionType, IsMovableCollectionOrPosition) == MovableCollection
  {
    MovableCollectionKept(IsFunctionType, AllIncluded);
    MovableCollectionKept(IsFunctionOrSize, AllIncluded);
    MovableCollectionKept(IsFunctionType, IsMovableCollectionOrPosition);
  }

  /** `MovablePosition` with its method simplified to `{}`. */
  const MovablePositionWithoutMove: Shape :=
    Object(map["top" := Req(Number), "left" := Req(Number), "move" := Req(EmptyObject)], map[])

  lemma MovablePositionLosesMove()
    ensures Deep(MovablePosition, NoneExcluded, AllIncluded) == MovablePositionWithoutMove
  {
    DeepLosesFunction(Position);
    DeepOfObjectIs(MovablePosition.fields, map[], MovablePositionWithoutMove.fields, map[],
                   NoneExcluded, AllIncluded);
  }

  /** An object type one of whose properties changes is not left alone. */
  lemma PropertyChanged(fs: map<string, Field>, k: string, v: Shape, w: Shape, ex: Filter, inc: Filter)
    requires k in fs && fs[k] == Req(v) && !ex(Object(fs, map[])) && inc(Object(fs, map[]))
    requires Deep(v, ex, inc) == w && w != v
    ensures Deep(Object(fs, map[]), ex, inc).Object?
    ensures k in Deep(Object(fs, map[]), ex, inc).fields
    ensures Deep(Object(fs, map[]), ex, inc).fields[k] == Req(w)
    ensures Deep(Object(fs, map[]), ex, inc) != Object(fs, map[])
  {
    DeepOfProperty(fs, map[], k, ex, inc);
    ChangedAt(Deep(Object(fs, map[]), ex, inc), Object(fs, map[]), k);
  }

  /** Two object types that differ in one property differ. */
  lemma ChangedAt(a: Shape, b: Shape, k: string)
    requires a.Object? && b.Object? && k in a.fields && k in b.fields && a.fields[k] != b.fields[k]
    ensures a != b
  {
  }

  lemma MovablePositionChanged()
    ensures MovablePositionWithoutMove != MovablePosition
  {
    assert MovablePositionWithoutMove.fields["move"] != MovablePosition.fields["move"];
  }

  /** Without an exclusion the method `move` becomes `{}`, so the result is
      not the collection. */
  lemma MovableCollectionLosesMethods()
    ensures var r := Deep(MovableCollection, NoneExcluded, AllIncluded);
            r.Object? && "position" in r.fields && r.fields["position"] == Req(MovablePositionWithoutMove)
    ensures Deep(MovableCollection, NoneExcluded, AllIncluded) != MovableCollection
  {
    MovablePositionLosesMove();
    MovablePositionChanged();
    PropertyChanged(MovableCollection.fields, "position", MovablePosition, MovablePositionWithoutMove,
                    NoneExcluded, AllIncluded);
  }
}
