/** Laws of `ConditionalSimplify` and `ConditionalSimplifyDeep`. */
module SimplifyLaws {
  import opened Wrappers
  import opened Shapes
  import opened Simplification

  /** `ConditionalSimplify` distributes over unions: the alternatives of the
      result are the simplified alternatives of the input. */
  lemma SimplifyMemberwise(s: Shape, ex: Filter, inc: Filter)
    ensures Members(Simplify(s, ex, inc)) == set x | x in Members(s) :: SimplifyOne(x, ex, inc)
  {
    var xs := set x | x in Members(s) :: SimplifyOne(x, ex, inc);
    if s.Union? {
      assert Flatten(xs) == xs by {
        forall y | y in xs ensures Members(y) == {y} { }
      }
    } else {
      var r := SimplifyOne(s, ex, inc);
      assert Members(r) == {r};
      assert xs == {r};
    }
  }

  /** Simplifying twice is simplifying once, for one alternative. */
  lemma SimplifyOneIdempotent(x: Shape, ex: Filter, inc: Filter)
    requires !x.Union?
    ensures SimplifyOne(SimplifyOne(x, ex, inc), ex, inc) == SimplifyOne(x, ex, inc)
  {
  }

  lemma SimplifyFixed(xs: set<Shape>, ex: Filter, inc: Filter)
    requires forall y | y in xs :: !y.Union? && SimplifyOne(y, ex, inc) == y
    ensures (set y | y in xs :: SimplifyOne(y, ex, inc)) == xs
  {
  }

  /** `ConditionalSimplify` is idempotent. */
  lemma SimplifyIdempotent(s: Shape, ex: Filter, inc: Filter)
    ensures Simplify(Simplify(s, ex, inc), ex, inc) == Simplify(s, ex, inc)
  {
    var r := Simplify(s, ex, inc);
    if !s.Union? {
      SimplifyOneIdempotent(s, ex, inc);
    } else {
      var xs := set x | x in Members(s) :: SimplifyOne(x, ex, inc);
      SimplifyMemberwise(s, ex, inc);
      assert Members(r) == xs;
      forall y | y in xs ensures !y.Union? && SimplifyOne(y, ex, inc) == y {
        var x :| x in Members(s) && y == SimplifyOne(x, ex, inc);
        SimplifyOneIdempotent(x, ex, inc);
      }
      if r.Union? {
        SimplifyFixed(xs, ex, inc);
      } else {
        assert r in xs;
      }
    }
  }

  /** An object type is its own simplification. */
  lemma CombineSingle(p: Shape)
    requires p.Object?
    ensures Combine({p}) == p
  {
    var ps := {p};
    assert FieldKeys(ps) == p.fields.Keys;
    assert IndexKeys(ps) == p.indexes.Keys;
    forall k | k in p.fields ensures CombineField(ps, k) == p.fields[k] {
      CombineFieldOfOne(ps, p, k);
    }
    forall k | k in p.indexes ensures CombineIndex(ps, k) == p.indexes[k] {
      CombineIndexOfOne(ps, p, k);
    }
    CombineFieldsAre(ps, p.fields);
    CombineIndexesAre(ps, p.indexes);
  }

  /** A property declared by exactly one part keeps that part's declaration. */
  lemma CombineFieldOfOne(ps: set<Shape>, p: Shape, k: string)
    requires p in ps && p.Object? && k in p.fields
    requires forall q | q in ps && q != p && q.Object? :: k !in q.fields
    ensures CombineField(ps, k) == p.fields[k]
  {
    assert DeclaringParts(ps, k) == {p};
    assert (set q | q in DeclaringParts(ps, k) :: q.fields[k].value) == {p.fields[k].value};
  }

  lemma CombineIndexOfOne(ps: set<Shape>, p: Shape, k: IndexKind)
    requires p in ps && p.Object? && k in p.indexes
    requires forall q | q in ps && q != p && q.Object? :: k !in q.indexes
    ensures CombineIndex(ps, k) == p.indexes[k]
  {
    assert (set q | q in ps && q.Object? && k in q.indexes :: q.indexes[k]) == {p.indexes[k]};
  }

  lemma KeysOfPair(a: Shape, b: Shape)
    requires a.Object? && b.Object?
    ensures FieldKeys({a, b}) == a.fields.Keys + b.fields.Keys
    ensures IndexKeys({a, b}) == a.indexes.Keys + b.indexes.Keys
  {
    forall k | k in a.fields.Keys + b.fields.Keys ensures k in FieldKeys({a, b}) {
      if k in a.fields { assert a in {a, b}; } else { assert b in {a, b}; }
    }
    forall k | k in a.indexes.Keys + b.indexes.Keys ensures k in IndexKeys({a, b}) {
      if k in a.indexes { assert a in {a, b}; } else { assert b in {a, b}; }
    }
  }

  /** The properties of a combination, given key by key. */
  lemma CombineFieldsAre(ps: set<Shape>, fs: map<string, Field>)
    requires FieldKeys(ps) == fs.Keys
    requires forall k | k in fs :: CombineField(ps, k) == fs[k]
    ensures Combine(ps).fields == fs
  {
    MapsEqual(Combine(ps).fields, fs);
  }

  lemma CombineIndexesAre(ps: set<Shape>, ix: map<IndexKind, Shape>)
    requires IndexKeys(ps) == ix.Keys
    requires forall k | k in ix :: CombineIndex(ps, k) == ix[k]
    ensures Combine(ps).indexes == ix
  {
    MapsEqual(Combine(ps).indexes, ix);
  }

  lemma CombineDisjointFields(a: Shape, b: Shape)
    requires a.Object? && b.Object? && a != b && a.fields.Keys !! b.fields.Keys
    ensures Combine({a, b}).fields == a.fields + b.fields
  {
    var ps := {a, b};
    var fs := a.fields + b.fields;
    KeysOfPair(a, b);
    forall k | k in fs ensures CombineField(ps, k) == fs[k] {
      if k in a.fields { CombineFieldOfOne(ps, a, k); } else { CombineFieldOfOne(ps, b, k); }
    }
    CombineFieldsAre(ps, fs);
  }

  lemma CombineDisjointIndexes(a: Shape, b: Shape)
    requires a.Object? && b.Object? && a != b && a.indexes.Keys !! b.indexes.Keys
    ensures Combine({a, b}).indexes == a.indexes + b.indexes
  {
    var ps := {a, b};
    var ix := a.indexes + b.indexes;
    KeysOfPair(a, b);
    forall k | k in ix ensures CombineIndex(ps, k) == ix[k] {
      if k in a.indexes { CombineIndexOfOne(ps, a, k); } else { CombineIndexOfOne(ps, b, k); }
    }
    CombineIndexesAre(ps, ix);
  }

  /** Two object types with no key in common combine into one object type
      with the properties and index signatures of both. */
  lemma CombineDisjoint(a: Shape, b: Shape)
    requires a.Object? && b.Object? && a != b
    requires a.fields.Keys !! b.fields.Keys && a.indexes.Keys !! b.indexes.Keys
    ensures Combine({a, b}) == Object(a.fields + b.fields, a.indexes + b.indexes)
  {
    CombineDisjointFields(a, b);
    CombineDisjointIndexes(a, b);
  }

  /** A shape the deep simplification has nothing to do on: no reachable
      function type or intersection passes the filters. */
  ghost predicate Settled(s: Shape, ex: Filter, inc: Filter)
    decreases s, 1
  {
    if s.Union? then forall m | m in s.members :: Settled(m, ex, inc)
    else ex(s) || !inc(s) || SettledParts(s, ex, inc)
  }

  ghost predicate SettledParts(s: Shape, ex: Filter, inc: Filter)
    decreases s, 0
  {
    match s
    case Function(_) => false
    case Intersection(_) => false
    case Object(fs, ix) =>
      (forall k | k in fs :: Settled(fs[k].value, ex, inc))
      && (forall k | k in ix :: Settled(ix[k], ex, inc))
    case Array(e) => Settled(e, ex, inc)
    case Tuple(es, rest) =>
      (forall i | 0 <= i < |es| :: Settled(es[i], ex, inc))
      && (rest.Some? ==> Settled(rest.value, ex, inc))
    case _ => true
  }

  /** The deep simplification leaves a settled normal shape alone. */
  lemma {:induction false} DeepFixpoint(s: Shape, ex: Filter, inc: Filter)
    requires Settled(s, ex, inc) && Normal(s)
    ensures Deep(s, ex, inc) == s
    decreases Depth(s), 1
  {
    match s
    case Union(ms) => DeepFixpointUnion(ms, ex, inc);
    case Object(fs, ix) =>
      if !ex(s) && inc(s) {
        DeepFixpointObject(fs, ix, ex, inc);
      }
    case Array(e) =>
      if !ex(s) && inc(s) {
        DeepFixpoint(e, ex, inc);
      }
    case Tuple(es, rest) =>
      if !ex(s) && inc(s) {
        DeepFixpointTuple(es, rest, ex, inc);
      }
    case _ =>
  }

  lemma {:induction false} DeepFixpointUnion(ms: set<Shape>, ex: Filter, inc: Filter)
    requires Settled(Union(ms), ex, inc) && Normal(Union(ms))
    ensures Deep(Union(ms), ex, inc) == Union(ms)
    decreases Depth(Union(ms)), 0
  {
    DepthOfMembers(ms);
    forall m | m in ms ensures Deep(m, ex, inc) == m {
      DeepFixpoint(m, ex, inc);
    }
    var rs := set m | m in ms :: Deep(m, ex, inc);
    assert rs == ms;
    assert Deep(Union(ms), ex, inc) == MkUnion(rs);
    MkUnionOfFlat(ms);
  }

  lemma {:induction false} DeepFixpointObject(fs: map<string, Field>, ix: map<IndexKind, Shape>, ex: Filter, inc: Filter)
    requires Settled(Object(fs, ix), ex, inc) && Normal(Object(fs, ix))
    requires !ex(Object(fs, ix)) && inc(Object(fs, ix))
    ensures Deep(Object(fs, ix), ex, inc) == Object(fs, ix)
    decreases Depth(Object(fs, ix)), 0
  {
    DepthOfFields(fs, ix);
    ObjectPartsSettled(fs, ix, ex, inc);
    DeepOfObject(fs, ix, ex, inc);
    var r := Deep(Object(fs, ix), ex, inc);
    forall k | k in fs ensures r.fields[k] == fs[k] {
      DeepFixpoint(fs[k].value, ex, inc);
    }
    forall k | k in ix ensures r.indexes[k] == ix[k] {
      DeepFixpoint(ix[k], ex, inc);
    }
    MapsEqual(r.fields, fs);
    MapsEqual(r.indexes, ix);
  }

  lemma ObjectPartsSettled(fs: map<string, Field>, ix: map<IndexKind, Shape>, ex: Filter, inc: Filter)
    requires Settled(Object(fs, ix), ex, inc) && Normal(Object(fs, ix))
    requires !ex(Object(fs, ix)) && inc(Object(fs, ix))
    ensures forall k | k in fs :: Settled(fs[k].value, ex, inc) && Normal(fs[k].value)
    ensures forall k | k in ix :: Settled(ix[k], ex, inc) && Normal(ix[k])
  {
    assert SettledParts(Object(fs, ix), ex, inc);
  }

  lemma {:induction false} DeepFixpointTuple(es: seq<Shape>, rest: Option<Shape>, ex: Filter, inc: Filter)
    requires Settled(Tuple(es, rest), ex, inc) && Normal(Tuple(es, rest))
    requires !ex(Tuple(es, rest)) && inc(Tuple(es, rest))
    ensures Deep(Tuple(es, rest), ex, inc) == Tuple(es, rest)
    decreases Depth(Tuple(es, rest)), 0
  {
    DepthOfElements(es, rest);
    forall i | 0 <= i < |es| ensures Deep(es[i], ex, inc) == es[i] {
      DeepFixpoint(es[i], ex, inc);
    }
    if rest.Some? {
      DeepFixpoint(rest.value, ex, inc);
    }
  }

  /** Each property of an object type that passes the filters is simplified
      in place. */
  lemma DeepOfObject(fs: map<string, Field>, ix: map<IndexKind, Shape>, ex: Filter, inc: Filter)
    requires !ex(Object(fs, ix)) && inc(Object(fs, ix))
    ensures Deep(Object(fs, ix), ex, inc).Object?
    ensures Deep(Object(fs, ix), ex, inc).fields.Keys == fs.Keys
    ensures forall k | k in fs ::
              Deep(Object(fs, ix), ex, inc).fields[k] == Field(fs[k].optional, Deep(fs[k].value, ex, inc))
    ensures Deep(Object(fs, ix), ex, inc).indexes.Keys == ix.Keys
    ensures forall k | k in ix :: Deep(Object(fs, ix), ex, inc).indexes[k] == Deep(ix[k], ex, inc)
  {
    DeepOfPassing(Object(fs, ix), ex, inc);
    DeepMapOfObject(fs, ix, ex, inc);
  }

  lemma DeepOfPassing(s: Shape, ex: Filter, inc: Filter)
    requires !s.Union? && !ex(s) && inc(s)
    ensures Deep(s, ex, inc) == DeepMap(s, ex, inc)
  {
  }

  /** The deep mapped type of an object type, property by property. */
  lemma DeepMapOfObject(fs: map<string, Field>, ix: map<IndexKind, Shape>, ex: Filter, inc: Filter)
    ensures DeepMap(Object(fs, ix), ex, inc).Object?
    ensures DeepMap(Object(fs, ix), ex, inc).fields.Keys == fs.Keys
    ensures forall k | k in fs ::
              DeepMap(Object(fs, ix), ex, inc).fields[k] == Field(fs[k].optional, Deep(fs[k].value, ex, inc))
    ensures DeepMap(Object(fs, ix), ex, inc).indexes.Keys == ix.Keys
    ensures forall k | k in ix :: DeepMap(Object(fs, ix), ex, inc).indexes[k] == Deep(ix[k], ex, inc)
  {
  }

  /** The deep mapped type of an intersection of object types is that of
      their combination. */
  lemma DeepMapOfIntersection(ps: set<Shape>, ex: Filter, inc: Filter)
    requires ps != {} && AllObjects(ps)
    ensures DeepMap(Intersection(ps), ex, inc) == DeepMap(Combine(ps), ex, inc)
  {
  }

  /** One property of an object type that passes the filters, simplified in
      place. */
  lemma DeepOfProperty(fs: map<string, Field>, ix: map<IndexKind, Shape>, k: string, ex: Filter, inc: Filter)
    requires k in fs && !ex(Object(fs, ix)) && inc(Object(fs, ix))
    ensures Deep(Object(fs, ix), ex, inc).Object?
    ensures k in Deep(Object(fs, ix), ex, inc).fields
    ensures Deep(Object(fs, ix), ex, inc).fields[k] == Field(fs[k].optional, Deep(fs[k].value, ex, inc))
  {
    DeepOfObject(fs, ix, ex, inc);
  }

  /** The deep simplification of an object type, given property by property. */
  lemma DeepOfObjectIs(fs: map<string, Field>, ix: map<IndexKind, Shape>,
                       fs2: map<string, Field>, ix2: map<IndexKind, Shape>, ex: Filter, inc: Filter)
    requires !ex(Object(fs, ix)) && inc(Object(fs, ix))
    requires fs2.Keys == fs.Keys && forall k | k in fs :: fs2[k] == Field(fs[k].optional, Deep(fs[k].value, ex, inc))
    requires ix2.Keys == ix.Keys && forall k | k in ix :: ix2[k] == Deep(ix[k], ex, inc)
    ensures Deep(Object(fs, ix), ex, inc) == Object(fs2, ix2)
  {
    DeepOfObject(fs, ix, ex, inc);
    var r := Deep(Object(fs, ix), ex, inc);
    MapsEqual(r.fields, fs2);
    MapsEqual(r.indexes, ix2);
  }

  /** An intersection of object types that passes the filters is combined,
      then simplified property by property. */
  lemma DeepOfIntersection(ps: set<Shape>, ex: Filter, inc: Filter)
    requires ps != {} && AllObjects(ps)
    requires !ex(Intersection(ps)) && inc(Intersection(ps))
    requires !ex(Combine(ps)) && inc(Combine(ps))
    ensures Deep(Intersection(ps), ex, inc) == Deep(Combine(ps), ex, inc)
  {
    DeepOfPassing(Intersection(ps), ex, inc);
    DeepOfPassing(Combine(ps), ex, inc);
    DeepMapOfIntersection(ps, ex, inc);
  }

  /** Without an exclusion a function type simplifies to `{}`, so the
      simplification of a shape holding a method differs from it. */
  lemma DeepLosesFunction(r: Shape)
    ensures Deep(Function(r), NoneExcluded, AllIncluded) == EmptyObject
    ensures Simplify(Function(r), NoneExcluded, AllIncluded) == EmptyObject
  {
  }

  /** An excluded function type is kept. */
  lemma DeepKeepsExcludedFunction(r: Shape, ex: Filter, inc: Filter)
    requires ex(Function(r))
    ensures Deep(Function(r), ex, inc) == Function(r)
    ensures Simplify(Function(r), ex, inc) == Function(r)
  {
  }
}
