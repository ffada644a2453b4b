/** Laws of `TupleToUnion` and `LiteralToPrimitive`. */
module UnionLaws {
  import opened Wrappers
  import opened Shapes
  import opened Unions

  /** Unions with the same alternatives are the same union. */
  lemma MkUnionByMembers(ms1: set<Shape>, ms2: set<Shape>)
    requires Flatten(ms1) == Flatten(ms2)
    ensures MkUnion(ms1) == MkUnion(ms2)
  {
  }

  lemma MembersOfNever()
    ensures Members(Never) == {}
  {
  }

  lemma InFlatten(ms: set<Shape>, m: Shape, x: Shape)
    requires m in ms && x in Members(m)
    ensures x in Flatten(ms)
  {
  }

  lemma FromFlatten(ms: set<Shape>, x: Shape) returns (m: Shape)
    requires x in Flatten(ms)
    ensures m in ms && x in Members(m)
  {
    m :| m in ms && x in Members(m);
  }

  /** Flattening a set of non-union shapes changes nothing. */
  lemma FlattenFlat(ms: set<Shape>)
    requires forall m | m in ms :: !m.Union?
    ensures Flatten(ms) == ms
  {
    forall m | m in ms ensures Members(m) == {m} { }
  }

  lemma FlattenOne(e: Shape)
    ensures Flatten({e}) == Members(e)
  {
    forall x | x in Members(e) ensures x in Flatten({e}) { InFlatten({e}, e, x); }
  }

  lemma FlattenPair(x: Shape, y: Shape)
    ensures Flatten({x, y}) == Members(x) + Members(y)
  {
    assert {x, y} == {x} + {y};
    FlattenAppend({x}, {y});
    FlattenOne(x);
    FlattenOne(y);
  }

  lemma FlattenAppend(a: set<Shape>, b: set<Shape>)
    ensures Flatten(a + b) == Flatten(a) + Flatten(b)
  {
    forall x | x in Flatten(a + b) ensures x in Flatten(a) + Flatten(b) {
      var m := FromFlatten(a + b, x);
      if m in a { InFlatten(a, m, x); } else { InFlatten(b, m, x); }
    }
    forall x | x in Flatten(a) ensures x in Flatten(a + b) {
      var m := FromFlatten(a, x);
      InFlatten(a + b, m, x);
    }
    forall x | x in Flatten(b) ensures x in Flatten(a + b) {
      var m := FromFlatten(b, x);
      InFlatten(a + b, m, x);
    }
  }

  // ---------------------------------------------------------------- TupleToUnion

  /** A type that is not a union contributes its own elements. */
  lemma TupleToUnionOfOne(s: Shape)
    requires !s.Union?
    ensures TupleToUnion(s) == MkUnion(Elements(s))
  {
    assert Members(s) == {s};
    assert ElementsOfMembers(s) == Elements(s);
  }

  /** The union holds exactly the elements of the tuple, the rest element
      included, and does not widen them. */
  lemma TupleToUnionMembers(es: seq<Shape>, rest: Option<Shape>, x: Shape)
    requires forall i | 0 <= i < |es| :: !es[i].Union?
    requires rest.Some? ==> !rest.value.Union?
    ensures x in Members(TupleToUnion(Tuple(es, rest))) <==> x in es || rest == Some(x)
  {
    TupleToUnionOfOne(Tuple(es, rest));
    ElementsOfTuple(es, rest);
    FlattenFlat(Elements(Tuple(es, rest)));
    ElementOfTuple(es, rest, x);
  }

  lemma ElementsOfTuple(es: seq<Shape>, rest: Option<Shape>)
    requires forall i | 0 <= i < |es| :: !es[i].Union?
    requires rest.Some? ==> !rest.value.Union?
    ensures forall m | m in Elements(Tuple(es, rest)) :: !m.Union?
  {
  }

  lemma ElementOfTuple(es: seq<Shape>, rest: Option<Shape>, x: Shape)
    ensures x in Elements(Tuple(es, rest)) <==> x in es || rest == Some(x)
  {
    if x in es {
      var i :| 0 <= i < |es| && es[i] == x;
    }
  }

  /** The empty tuple gives the empty union. */
  lemma TupleToUnionOfEmpty()
    ensures TupleToUnion(Tuple([], None)) == Never
  {
    var t := Tuple([], None);
    assert Members(t) == {t};
    assert Elements(t) == {};
  }

  /** An array type gives its element type's alternatives. */
  lemma TupleToUnionOfArray(e: Shape)
    ensures Members(TupleToUnion(Array(e))) == Members(e)
  {
    TupleToUnionOfOne(Array(e));
    assert Elements(Array(e)) == {e};
    FlattenOne(e);
  }

  lemma ElementsOfMembersAppend(a: Shape, b: Shape, u: Shape)
    requires Members(u) == Members(a) + Members(b)
    ensures ElementsOfMembers(u) == ElementsOfMembers(a) + ElementsOfMembers(b)
  {
  }

  /** `TupleToUnion` is applied alternative by alternative: a union of two
      tuple types gives the union of both tuples' elements. */
  lemma TupleToUnionDistributes(a: Shape, b: Shape)
    ensures TupleToUnion(MkUnion({a, b})) == MkUnion({TupleToUnion(a), TupleToUnion(b)})
  {
    var ea, eb := ElementsOfMembers(a), ElementsOfMembers(b);
    FlattenPair(a, b);
    ElementsOfMembersAppend(a, b, MkUnion({a, b}));
    FlattenAppend(ea, eb);
    FlattenPair(TupleToUnion(a), TupleToUnion(b));
    MkUnionByMembers(ea + eb, {TupleToUnion(a), TupleToUnion(b)});
  }

  // ---------------------------------------------------------------- LiteralToPrimitive

  /** `Widen` picks the primitive an alternative extends, and `never` when it
      extends none of them. */
  lemma WidenExtends(x: Shape, p: Shape)
    requires p in Primitives
    ensures Widen(x) == p <==> ExtendsPrimitive(x, p)
  {
  }

  lemma WidenToNever(x: Shape)
    ensures Widen(x) == Never <==> forall p | p in Primitives :: !ExtendsPrimitive(x, p)
  {
    if Widen(x) != Never {
      assert ExtendsPrimitive(x, Widen(x));
    }
  }

  /** Seven different primitives, none of them `never`. */
  lemma PrimitivesCount()
    ensures |Primitives| == 7 && Never !in Primitives
  {
  }

  lemma WithoutAbsent(ms: set<Shape>, x: Shape)
    requires x !in ms
    ensures ms + {x} - {x} == ms
  {
  }

  lemma WidenedAppend(a: set<Shape>, b: set<Shape>)
    ensures Widened(a + b) == Widened(a) + Widened(b)
  {
  }

  /** Primitives widen to themselves. */
  lemma WidenedPrimitives(ms: set<Shape>)
    requires ms <= Primitives
    ensures Widened(ms) == ms
  {
    forall x | x in ms ensures Widen(x) == x { }
    forall x | x in ms ensures x in Widened(ms) { }
  }

  /** Among the widened alternatives, only the primitives are alternatives
      of the result. */
  lemma FlattenWidened(ms: set<Shape>)
    ensures Flatten(Widened(ms)) == Widened(ms) - {Never}
  {
    var ws := Widened(ms);
    forall m | m in ws ensures Members(m) == if m == Never then {} else {m} {
      if m == Never { MembersOfNever(); }
    }
    forall x | x in Flatten(ws) ensures x in ws - {Never} {
      var m := FromFlatten(ws, x);
    }
    forall x | x in ws - {Never} ensures x in Flatten(ws) {
      InFlatten(ws, x, x);
    }
  }

  lemma LiteralToPrimitiveMembersAre(s: Shape)
    ensures Members(LiteralToPrimitive(s)) == Widened(Members(s)) - {Never}
  {
    FlattenWidened(Members(s));
  }

  /** A primitive is an alternative of the result exactly when some
      alternative of the input extends it. */
  lemma LiteralToPrimitiveMembers(s: Shape, p: Shape)
    ensures p in Members(LiteralToPrimitive(s))
        <==> p in Primitives && exists x | x in Members(s) :: ExtendsPrimitive(x, p)
  {
    if p in Members(LiteralToPrimitive(s)) {
      var x := WidenedFrom(s, p);
    }
    if p in Primitives && exists x | x in Members(s) :: ExtendsPrimitive(x, p) {
      var x :| x in Members(s) && ExtendsPrimitive(x, p);
      WidenedTo(s, p, x);
    }
  }

  lemma WidenedFrom(s: Shape, p: Shape) returns (x: Shape)
    requires p in Members(LiteralToPrimitive(s))
    ensures p in Primitives && x in Members(s) && ExtendsPrimitive(x, p)
  {
    LiteralToPrimitiveMembersAre(s);
    x :| x in Members(s) && Widen(x) == p;
    WidenExtends(x, p);
  }

  lemma WidenedTo(s: Shape, p: Shape, x: Shape)
    requires p in Primitives && x in Members(s) && ExtendsPrimitive(x, p)
    ensures p in Members(LiteralToPrimitive(s))
  {
    LiteralToPrimitiveMembersAre(s);
    WidenExtends(x, p);
    assert p in Widened(Members(s));
    PrimitivesCount();
  }

  /** A flat union whose alternatives widen to several primitives is the
      union of those primitives. */
  lemma LiteralToPrimitiveOfFlat(ms: set<Shape>, ps: set<Shape>)
    requires forall m | m in ms :: !m.Union?
    requires Widened(ms) - {Never} == ps && |ps| != 1
    ensures LiteralToPrimitive(Union(ms)) == Union(ps)
  {
    MembersOfFlat(ms);
    FlattenWidened(ms);
    MkUnionMany(Widened(ms));
  }

  /** Widening a widened union changes nothing. */
  lemma LiteralToPrimitiveIdempotent(s: Shape)
    ensures LiteralToPrimitive(LiteralToPrimitive(s)) == LiteralToPrimitive(s)
  {
    var r := LiteralToPrimitive(s);
    var ws := Widened(Members(s));
    WidenedPrimitives(Members(r));
    FlattenFlat(Members(r));
    FlattenWidened(Members(s));
    assert Members(r) == Flatten(ws);
    MkUnionByMembers(Members(r), ws);
  }

  /** `LiteralToPrimitive` is applied alternative by alternative: widening a
      union of two types is the union of widening each. */
  lemma LiteralToPrimitiveDistributes(a: Shape, b: Shape)
    ensures LiteralToPrimitive(MkUnion({a, b}))
         == MkUnion({LiteralToPrimitive(a), LiteralToPrimitive(b)})
  {
    var la, lb := LiteralToPrimitive(a), LiteralToPrimitive(b);
    var wa, wb := Widened(Members(a)), Widened(Members(b));
    FlattenPair(a, b);
    assert Members(MkUnion({a, b})) == Members(a) + Members(b);
    WidenedAppend(Members(a), Members(b));
    FlattenAppend(wa, wb);
    FlattenPair(la, lb);
    MkUnionByMembers(wa + wb, {la, lb});
  }
}
