/** The `TupleToUnion` and `LiteralToPrimitive` examples of the type-fest test
    suite. */
module UnionFixtures {
  import opened Wrappers
  import opened Shapes
  import opened Unions
  import opened UnionLaws

  /** `['a', 'b', 'c'] as const`. */
  const Options: Shape := Tuple([StrLit("a"), StrLit("b"), StrLit("c")], None)

  /** `TupleToUnion<typeof options>` is `'a' | 'b' | 'c'`: each literal is an
      alternative, none is widened to `string`, and they stay three. */
  lemma OptionsUnion()
    ensures TupleToUnion(Options) == Union({StrLit("a"), StrLit("b"), StrLit("c")})
    ensures StrLit("a") in Members(TupleToUnion(Options))
    ensures StrLit("b") in Members(TupleToUnion(Options))
    ensures StrLit("c") in Members(TupleToUnion(Options))
    ensures String !in Members(TupleToUnion(Options))
  {
    UnionOfThree(StrLit("a"), StrLit("b"), StrLit("c"));
    NotAmongThree(Members(TupleToUnion(Options)), StrLit("a"), StrLit("b"), StrLit("c"), String);
  }

  lemma NotAmongThree(ms: set<Shape>, a: Shape, b: Shape, c: Shape, d: Shape)
    requires ms == {a, b, c} && d != a && d != b && d != c
    ensures d !in ms
  {
  }

  /** A tuple of three different non-union elements gives the union of the
      three. */
  lemma UnionOfThree(a: Shape, b: Shape, c: Shape)
    requires !a.Union? && !b.Union? && !c.Union? && a != b && b != c && a != c
    ensures TupleToUnion(Tuple([a, b, c], None)) == Union({a, b, c})
    ensures Members(TupleToUnion(Tuple([a, b, c], None))) == {a, b, c}
  {
    var t, abc := Tuple([a, b, c], None), {a, b, c};
    TupleToUnionOfOne(t);
    ElementsOfThree(a, b, c);
    ThreeCount(a, b, c);
    MkUnionOfFlat(abc);
    MembersOfFlat(abc);
  }

  lemma ElementsOfThree(a: Shape, b: Shape, c: Shape)
    ensures Elements(Tuple([a, b, c], None)) == {a, b, c}
  {
    var es := [a, b, c];
    assert (set i | 0 <= i < |es| :: es[i]) == {a, b, c} by {
      assert es[0] == a && es[1] == b && es[2] == c;
    }
  }

  lemma ThreeCount(a: Shape, b: Shape, c: Shape)
    requires a != b && b != c && a != c
    ensures |{a, b, c}| == 3
  {
  }

  /** `TupleToUnion<[]>` is `never`. */
  lemma EmptyTupleUnion()
    ensures TupleToUnion(Tuple([], None)) == Never
  {
    TupleToUnionOfEmpty();
  }

  /** `LiteralToPrimitive<123>` is `number`. */
  lemma NumberLiteral()
    ensures LiteralToPrimitive(NumLit(123.0)) == Number
  {
    assert Widened(Members(NumLit(123.0))) == {Number};
    FlattenFlat({Number});
  }

  /** `{key: string}`, an object type that is no primitive. */
  const KeyObject: Shape := Object(map["key" := Field(false, String)], map[])

  /** `123 | 123n | 'hello' | true | undefined | typeof symbol | null | {key: string}`. */
  const KitchenSinkMembers: set<Shape> :=
    {NumLit(123.0), BigIntLit(123), StrLit("hello"), BoolLit(true), Undefined,
     UniqueSymbol("symbol"), Null, KeyObject}

  lemma KitchenSinkWidened()
    ensures Widened(KitchenSinkMembers) == Primitives + {Never}
  {
    var ms := KitchenSinkMembers;
    assert Widen(KeyObject) == Never;
    forall p | p in Primitives + {Never} ensures p in Widened(ms) {
      if p == Number { assert Widen(NumLit(123.0)) == p; }
      else if p == BigInt { assert Widen(BigIntLit(123)) == p; }
      else if p == String { assert Widen(StrLit("hello")) == p; }
      else if p == Boolean { assert Widen(BoolLit(true)) == p; }
      else if p == Symbol { assert Widen(UniqueSymbol("symbol")) == p; }
      else if p == Null { assert Widen(Null) == p; }
      else if p == Undefined { assert Widen(Undefined) == p; }
      else { assert Widen(KeyObject) == p; }
    }
  }

  lemma KitchenSinkFlat()
    ensures forall m | m in KitchenSinkMembers :: !m.Union?
  {
  }

  lemma KitchenSinkPrimitives()
    ensures Widened(KitchenSinkMembers) - {Never} == Primitives
  {
    KitchenSinkWidened();
    PrimitivesCount();
    WithoutAbsent(Primitives, Never);
  }

  /** The kitchen-sink union widens to the union of the seven primitives; the
      object type contributes nothing. */
  lemma KitchenSink()
    ensures LiteralToPrimitive(Union(KitchenSinkMembers)) == Union(Primitives)
  {
    KitchenSinkFlat();
    KitchenSinkPrimitives();
    PrimitivesCount();
    LiteralToPrimitiveOfFlat(KitchenSinkMembers, Primitives);
  }
}
