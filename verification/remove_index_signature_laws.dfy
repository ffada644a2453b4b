/** Laws of `RemoveIndexSignature`. */
module IndexSignatureLaws {
  import opened Shapes
  import opened Simplification
  import opened Merging
  import opened IndexSignatures

  /** An object type keeps its properties and loses its index signatures. */
  lemma RemoveOfObject(s: Shape)
    requires s.Object?
    ensures RemoveIndexSignature(s) == Object(s.fields, map[])
  {
  }

  lemma RemoveFromIdempotent(x: Shape)
    requires !x.Union?
    ensures RemoveFrom(RemoveFrom(x)) == RemoveFrom(x)
  {
  }

  /** Alternatives that have nothing left to remove are kept as they are. */
  lemma RemovedMembersFixed(r: Shape)
    requires forall y | y in Members(r) :: RemoveFrom(y) == y
    ensures RemovedMembers(r) == Members(r)
  {
    var ms := Members(r);
    var ys := RemovedMembers(r);
    assert ys == set x | x in ms :: RemoveFrom(x);
    assert ys <= ms by {
      forall y | y in ys ensures y in ms {
        var x :| x in ms && y == RemoveFrom(x);
      }
    }
    assert ms <= ys by {
      forall y | y in ms ensures y in ys {
        assert RemoveFrom(y) == y;
      }
    }
  }

  /** Removing index signatures twice is removing them once. */
  lemma {:induction false} RemoveIndexSignatureIdempotent(s: Shape)
    ensures RemoveIndexSignature(RemoveIndexSignature(s)) == RemoveIndexSignature(s)
  {
    var rs := RemovedMembers(s);
    var r := RemoveIndexSignature(s);
    assert r == MkUnion(rs);
    RemovedMembersFlat(rs);
    assert Members(r) == rs;
    forall y | y in rs ensures RemoveFrom(y) == y {
      var x :| x in Members(s) && y == RemoveFrom(x);
      RemoveFromIdempotent(x);
    }
    RemovedMembersFixed(r);
    assert RemoveIndexSignature(r) == MkUnion(RemovedMembers(r));
  }

  /** An intersection of object types loses the index signatures of all its
      parts and keeps the properties of all its parts. */
  lemma RemoveOfIntersection(ps: set<Shape>)
    requires ps != {} && AllObjects(ps)
    ensures RemoveIndexSignature(Intersection(ps)).Object?
    ensures RemoveIndexSignature(Intersection(ps)).fields.Keys == FieldKeys(ps)
    ensures RemoveIndexSignature(Intersection(ps)).indexes == map[]
  {
    var s := Intersection(ps);
    var o := Object(Combine(ps).fields, map[]);
    assert Members(s) == {s};
    assert RemovedMembers(s) == {o};
    RemovedMembersFlat({o});
    MkUnionSingle({o}, o);
    assert RemoveIndexSignature(s) == MkUnion({o});
  }

  /** The literal keys of a merge come from the literal keys of its operands,
      so index signatures can be removed before or after merging. */
  lemma RemoveIndexSignatureOfMerge(a: Shape, b: Shape)
    requires a.Object? && b.Object?
    ensures RemoveIndexSignature(Merge(a, b))
         == Merge(RemoveIndexSignature(a), RemoveIndexSignature(b))
  {
    RemoveOfObject(a);
    RemoveOfObject(b);
    RemoveOfObject(Merge(a, b));
    var l := RemoveIndexSignature(Merge(a, b));
    var r := Merge(RemoveIndexSignature(a), RemoveIndexSignature(b));
    MergeFields(a, b);
    MergeFields(RemoveIndexSignature(a), RemoveIndexSignature(b));
    assert l.fields == r.fields;
  }

  /** Removing index signatures commutes with a mapped type: the surviving
      keys keep their per-key mapped types. */
  lemma RemoveIndexSignatureOfMapped(s: Shape, f: (string, Shape) -> Shape, g: (IndexKind, Shape) -> Shape)
    requires s.Object?
    ensures RemoveIndexSignature(MapProperties(s, f, g))
         == MapProperties(RemoveIndexSignature(s), f, g)
  {
    RemoveOfObject(s);
    RemoveOfObject(MapProperties(s, f, g));
    var l := RemoveIndexSignature(MapProperties(s, f, g));
    var r := MapProperties(RemoveIndexSignature(s), f, g);
    assert l.fields == r.fields;
  }
}
