/** The optional value used for a tuple's rest element. */
module Wrappers {
  datatype Option<+T> = None | Some(value: T)
}

/**
 A structural description of a TypeScript type: primitives and literals, the
 built-in classes the transformations single out, arrays, tuples, object
 types (literal keys plus index signatures), unions and intersections.
 Unions and intersections are sets, as their order does not matter.
 */
module Shapes {
  import opened Wrappers

  /** The key type of an index signature `[x: K]: V`. */
  datatype IndexKind =
    | StringIndex
    | NumberIndex
    | SymbolIndex
    | TemplateIndex(pattern: string)   // `head-${string}`, `${bigint}`, ...

  /** `Number`, `String` and `Boolean` object wrappers. */
  datatype BoxKind = BoxedNumber | BoxedString | BoxedBoolean

  /** A property `key?: value` of an object type. */
  datatype Field = Field(optional: bool, value: Shape)

  datatype Shape =
    | Undefined
    | Null
    | Boolean
    | Number
    | String
    | BigInt
    | Symbol
    | BoolLit(b: bool)
    | NumLit(n: real)
    | StrLit(s: string)
    | BigIntLit(i: int)
    | UniqueSymbol(name: string)
    | PositiveInfinity
    | NegativeInfinity
    | Boxed(box: BoxKind)
    | Date
    | RegExp
    | TypedArray
    | MapOf(keys: Shape, values: Shape)
    | SetOf(elem: Shape)
    | Function(result: Shape)
    | Array(elem: Shape)
    | Tuple(elems: seq<Shape>, rest: Option<Shape>)
    | Object(fields: map<string, Field>, indexes: map<IndexKind, Shape>)
    | Union(members: set<Shape>)
    | Intersection(parts: set<Shape>)

  /** The empty union. */
  const Never: Shape := Union({})

  /** The empty intersection. */
  const Unknown: Shape := Intersection({})

  const EmptyObject: Shape := Object(map[], map[])

  /** The alternatives of a shape: the leaves of its (possibly nested) unions. */
  function Members(s: Shape): (r: set<Shape>)
    ensures forall x | x in r :: !x.Union?
    ensures !s.Union? ==> r == {s}
  {
    match s
    case Union(ms) => set m, x | m in ms && x in Members(m) :: x
    case _ => {s}
  }

  /** The alternatives of a set of shapes taken as one union. */
  function Flatten(ms: set<Shape>): set<Shape>
  {
    set m, x | m in ms && x in Members(m) :: x
  }

  lemma SingletonHasElement<T>(xs: set<T>)
    requires |xs| == 1
    ensures exists x :: x in xs && xs == {x}
  {
    var x :| x in xs;
    assert |xs - {x}| == 0;
    assert xs == {x};
  }

  function Only(xs: set<Shape>): (r: Shape)
    requires |xs| == 1
    ensures xs == {r}
  {
    SingletonHasElement(xs);
    var x :| x in xs && xs == {x}; x
  }

  /** The union of `ms`, flattened; a single alternative stands for itself. */
  function MkUnion(ms: set<Shape>): (r: Shape)
    ensures Members(r) == Flatten(ms)
    ensures |Flatten(ms)| != 1 ==> r.Union?
    ensures |Flatten(ms)| == 1 ==> Flatten(ms) == {r}
  {
    var flat := Flatten(ms);
    if |flat| == 1 then Only(flat)
    else
      assert Flatten(flat) == flat by {
        forall x | x in flat ensures Members(x) == {x} { }
      }
      Union(flat)
  }

  predicate HasFunctionMember(v: Shape)
  {
    exists m | m in Members(v) :: m.Function?
  }

  /** No empty intersection (`unknown`) occurs anywhere in the shape. */
  predicate NoUnknown(s: Shape)
  {
    match s
    case Intersection(ps) => ps != {} && forall p | p in ps :: NoUnknown(p)
    case Union(ms) => forall m | m in ms :: NoUnknown(m)
    case Object(fs, ix) =>
      (forall k | k in fs :: NoUnknown(fs[k].value)) && (forall k | k in ix :: NoUnknown(ix[k]))
    case Array(e) => NoUnknown(e)
    case Tuple(es, rest) =>
      (forall i | 0 <= i < |es| :: NoUnknown(es[i])) && (rest.Some? ==> NoUnknown(rest.value))
    case Function(r) => NoUnknown(r)
    case MapOf(k, v) => NoUnknown(k) && NoUnknown(v)
    case SetOf(e) => NoUnknown(e)
    case _ => true
  }

  /** The form the transformations produce: unions are flat and never have
      exactly one alternative, and no property has type `never`. */
  predicate Normal(s: Shape)
  {
    match s
    case Union(ms) => |ms| != 1 && forall m | m in ms :: !m.Union? && Normal(m)
    case Intersection(ps) => forall p | p in ps :: Normal(p)
    case Object(fs, ix) =>
      (forall k | k in fs :: fs[k].value != Never && Normal(fs[k].value))
      && (forall k | k in ix :: Normal(ix[k]))
    case Array(e) => Normal(e)
    case Tuple(es, rest) =>
      (forall i | 0 <= i < |es| :: Normal(es[i])) && (rest.Some? ==> Normal(rest.value))
    case Function(r) => Normal(r)
    case MapOf(k, v) => Normal(k) && Normal(v)
    case SetOf(e) => Normal(e)
    case _ => true
  }

  /** The alternatives of a normal shape are normal. */
  lemma {:induction false} MembersNormal(s: Shape)
    requires Normal(s)
    ensures forall x | x in Members(s) :: Normal(x)
  {
    if s.Union? {
      forall m | m in s.members ensures Members(m) == {m} { }
    }
  }

  /** A union of normal shapes is normal. */
  lemma MkUnionNormal(ms: set<Shape>)
    requires forall m | m in ms :: Normal(m)
    ensures Normal(MkUnion(ms))
  {
    forall m | m in ms ensures forall x | x in Members(m) :: Normal(x) { MembersNormal(m); }
  }

  /** `MkUnion` leaves an already flat union alone. */
  lemma MkUnionOfFlat(ms: set<Shape>)
    requires |ms| != 1 && forall m | m in ms :: !m.Union?
    ensures MkUnion(ms) == Union(ms)
  {
    assert Flatten(ms) == ms by {
      forall m | m in ms ensures Members(m) == {m} { }
    }
  }

  /** A non-union alternative listed in a union is one of its members. */
  lemma MemberOfUnion(ms: set<Shape>, x: Shape)
    requires x in ms && !x.Union?
    ensures x in Members(Union(ms))
  {
    assert x in Members(x);
  }

  /** A flat union's alternatives are exactly those it lists. */
  lemma MembersOfFlat(ms: set<Shape>)
    requires forall m | m in ms :: !m.Union?
    ensures Members(Union(ms)) == ms
  {
    forall m | m in ms ensures Members(m) == {m} { }
  }

  /** `x | never` is `x`. */
  lemma FlattenWithNever(x: Shape)
    requires !x.Union?
    ensures Flatten({x, Never}) == {x}
  {
    assert Members(x) == {x};
  }

  /** A union with a single alternative is that alternative. */
  lemma MkUnionSingle(ms: set<Shape>, x: Shape)
    requires Flatten(ms) == {x}
    ensures MkUnion(ms) == x
  {
    assert |Flatten(ms)| == 1;
  }

  lemma NoFunctionInFlat(ms: set<Shape>)
    requires forall m | m in ms :: !m.Union? && !m.Function?
    ensures !HasFunctionMember(Union(ms))
  {
    MembersOfFlat(ms);
  }

  /** A union of several alternatives is the union of its flattened members. */
  lemma MkUnionMany(ms: set<Shape>)
    requires |Flatten(ms)| != 1
    ensures MkUnion(ms) == Union(Flatten(ms))
  {
  }

  /** Flattening ignores `never` and keeps non-union alternatives. */
  lemma FlattenFlatWithNever(ms: set<Shape>)
    requires forall m | m in ms :: !m.Union?
    ensures Flatten(ms + {Never}) == ms
  {
    forall m | m in ms ensures Members(m) == {m} { }
  }

  /** A function listed in a union makes it have a function alternative. */
  lemma FunctionInUnion(ms: set<Shape>, f: Shape)
    requires f in ms && f.Function?
    ensures HasFunctionMember(Union(ms))
  {
    MemberOfUnion(ms, f);
  }

  /** `Exclude<T, U>` for a single alternative `U`. */
  function Exclude(v: Shape, x: Shape): (r: Shape)
    ensures Members(r) == Members(v) - {x}
    ensures |Members(v) - {x}| == 1 ==> Members(v) - {x} == {r}
  {
    var ms := Members(v) - {x};
    assert Flatten(ms) == ms by {
      forall m | m in ms ensures Members(m) == {m} { }
    }
    MkUnion(ms)
  }

  /** Maps with the same keys and the same values are equal. */
  lemma MapsEqual<K, V>(m1: map<K, V>, m2: map<K, V>)
    requires m1.Keys == m2.Keys && forall k | k in m1 :: m1[k] == m2[k]
    ensures m1 == m2
  {
  }
}
