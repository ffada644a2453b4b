/**
 `Merge<Destination, Source>`: the properties and index signatures of both
 object types, those of `Source` overriding those of `Destination`.
 */
module Merging {
  import opened Shapes

  /** A property whose type is `T | undefined` becomes an optional `T`; a
      property of type exactly `undefined` is left as it is. */
  function Optionalize(f: Field): (r: Field)
    ensures Undefined !in Members(f.value) ==> r == f
    ensures Members(f.value) == {Undefined} ==> r == f
    ensures Undefined in Members(f.value) && Members(f.value) != {Undefined} ==>
              r.optional && Members(r.value) == Members(f.value) - {Undefined}
  {
    var ms := Members(f.value);
    if Undefined in ms && ms != {Undefined} then Field(true, Exclude(f.value, Undefined)) else f
  }

  function Merge(a: Shape, b: Shape): (r: Shape)
    requires a.Object? && b.Object?
    ensures r.Object?
    ensures r.fields.Keys == a.fields.Keys + b.fields.Keys
    ensures r.indexes.Keys == a.indexes.Keys + b.indexes.Keys
  {
    var fs := a.fields + b.fields;
    Object(map k | k in fs :: Optionalize(fs[k]), a.indexes + b.indexes)
  }

  /** Every property of `Source` overrides, and is optionalised; the other
      properties of `Destination` are kept, and optionalised too. */
  lemma MergeFields(a: Shape, b: Shape)
    requires a.Object? && b.Object?
    ensures forall k | k in b.fields :: Merge(a, b).fields[k] == Optionalize(b.fields[k])
    ensures forall k | k in a.fields && k !in b.fields :: Merge(a, b).fields[k] == Optionalize(a.fields[k])
  {
  }

  /** The index signatures of `Source` override those of `Destination` with
      the same key type; the others are kept. */
  lemma MergeIndexes(a: Shape, b: Shape)
    requires a.Object? && b.Object?
    ensures forall k | k in b.indexes :: Merge(a, b).indexes[k] == b.indexes[k]
    ensures forall k | k in a.indexes && k !in b.indexes :: Merge(a, b).indexes[k] == a.indexes[k]
  {
  }

  /** One property of a merge. */
  lemma MergedField(a: Shape, b: Shape, k: string)
    requires a.Object? && b.Object? && (k in a.fields || k in b.fields)
    ensures Merge(a, b).fields[k] == Optionalize(if k in b.fields then b.fields[k] else a.fields[k])
  {
    MergeFields(a, b);
  }

  /** One index signature of a merge. */
  lemma MergedIndex(a: Shape, b: Shape, k: IndexKind)
    requires a.Object? && b.Object? && (k in a.indexes || k in b.indexes)
    ensures Merge(a, b).indexes[k] == if k in b.indexes then b.indexes[k] else a.indexes[k]
  {
    MergeIndexes(a, b);
  }
}
