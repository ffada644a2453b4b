/**
 `RemoveIndexSignature<T>`: an object type with every index signature
 (string, number, symbol and template-literal keys) removed and its literal
 keys kept. It is a mapped type over `keyof T`, so it is applied to each
 alternative of a union, and an intersection of object types is mapped as
 the one object type it stands for.
 */
module IndexSignatures {
  import opened Shapes
  import opened Simplification

  /** `RemoveIndexSignature` of one alternative. */
  function RemoveFrom(x: Shape): (r: Shape)
    requires !x.Union?
    ensures !r.Union?
  {
    match x
    case Object(fs, _) => Object(fs, map[])
    case Intersection(ps) => if ps != {} && AllObjects(ps) then Object(Combine(ps).fields, map[]) else x
    case _ => x
  }

  /** The alternatives of `s`, each without its index signatures. */
  function RemovedMembers(s: Shape): (rs: set<Shape>)
    ensures forall y | y in rs :: !y.Union?
    ensures forall y | y in rs :: y.Object? ==> y.indexes == map[]
    ensures forall y | y in rs :: !y.Object? ==> y in Members(s)
    ensures forall x | x in Members(s) && x.Object? :: Object(x.fields, map[]) in rs
  {
    set x | x in Members(s) :: RemoveFrom(x)
  }

  lemma RemovedMembersFlat(rs: set<Shape>)
    requires forall y | y in rs :: !y.Union?
    ensures Flatten(rs) == rs
  {
    forall y | y in rs ensures Members(y) == {y} { }
  }

  lemma RemovedFromObject(s: Shape)
    requires s.Object?
    ensures RemovedMembers(s) == {Object(s.fields, map[])}
  {
    assert Members(s) == {s};
  }

  function RemoveIndexSignature(s: Shape): (r: Shape)
    ensures s.Object? ==> r.Object? && r.fields == s.fields && r.indexes == map[]
    ensures forall x | x in Members(s) && x.Object? :: Object(x.fields, map[]) in Members(r)
    ensures forall y | y in Members(r) :: y.Object? ==> y.indexes == map[]
    ensures forall y | y in Members(r) :: !y.Object? ==> y in Members(s)
  {
    var rs := RemovedMembers(s);
    RemovedMembersFlat(rs);
    var r := MkUnion(rs);
    assert Members(r) == rs;
    assert s.Object? ==> r == Object(s.fields, map[]) by {
      if s.Object? {
        RemovedFromObject(s);
        MkUnionSingle(rs, Object(s.fields, map[]));
      }
    }
    r
  }

  /** A mapped type `{[K in keyof T]: F<K, T[K]>}`: each property keeps its
      key and optionality and gets the type `F` gives it; each index signature
      keeps its key type. */
  function MapProperties(s: Shape, f: (string, Shape) -> Shape, g: (IndexKind, Shape) -> Shape): (r: Shape)
    requires s.Object?
    ensures r.Object? && r.fields.Keys == s.fields.Keys && r.indexes.Keys == s.indexes.Keys
    ensures forall k | k in s.fields ::
              r.fields[k].optional == s.fields[k].optional && r.fields[k].value == f(k, s.fields[k].value)
  {
    Object(map k | k in s.fields :: Field(s.fields[k].optional, f(k, s.fields[k].value)),
           map k | k in s.indexes :: g(k, s.indexes[k]))
  }
}
