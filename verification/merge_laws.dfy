/** Algebraic laws of `Merge`. */
module MergeLaws {
  import opened Shapes
  import opened Merging

  /** Optionalising twice is optionalising once. */
  lemma OptionalizeIdempotent(f: Field)
    ensures Optionalize(Optionalize(f)) == Optionalize(f)
  {
  }

  /** Merging is associative: `Merge<Merge<A, B>, C>` is `Merge<A, Merge<B, C>>`. */
  lemma MergeAssociative(a: Shape, b: Shape, c: Shape)
    requires a.Object? && b.Object? && c.Object?
    ensures Merge(Merge(a, b), c) == Merge(a, Merge(b, c))
  {
    MergeAssociativeFields(a, b, c);
    MergeAssociativeIndexes(a, b, c);
  }

  lemma MergeAssociativeFields(a: Shape, b: Shape, c: Shape)
    requires a.Object? && b.Object? && c.Object?
    ensures Merge(Merge(a, b), c).fields == Merge(a, Merge(b, c)).fields
  {
    var l := Merge(Merge(a, b), c).fields;
    var r := Merge(a, Merge(b, c)).fields;
    assert l.Keys == r.Keys;
    forall k | k in l ensures l[k] == r[k] {
      MergedField(Merge(a, b), c, k);
      MergedField(a, Merge(b, c), k);
      if k in c.fields {
        MergedField(b, c, k);
        OptionalizeIdempotent(c.fields[k]);
      } else if k in b.fields {
        MergedField(a, b, k);
        MergedField(b, c, k);
        OptionalizeIdempotent(b.fields[k]);
      } else {
        MergedField(a, b, k);
        OptionalizeIdempotent(a.fields[k]);
      }
    }
  }

  lemma MergeAssociativeIndexes(a: Shape, b: Shape, c: Shape)
    requires a.Object? && b.Object? && c.Object?
    ensures Merge(Merge(a, b), c).indexes == Merge(a, Merge(b, c)).indexes
  {
    var l := Merge(Merge(a, b), c).indexes;
    var r := Merge(a, Merge(b, c)).indexes;
    assert l.Keys == r.Keys;
    forall k | k in l ensures l[k] == r[k] {
      MergedIndex(Merge(a, b), c, k);
      MergedIndex(a, Merge(b, c), k);
      if k in c.indexes {
        MergedIndex(b, c, k);
      } else if k in b.indexes {
        MergedIndex(a, b, k);
        MergedIndex(b, c, k);
      } else {
        MergedIndex(a, b, k);
      }
    }
  }

  /** Merging the same source again changes nothing. */
  lemma MergeAbsorbsSource(a: Shape, b: Shape)
    requires a.Object? && b.Object?
    ensures Merge(Merge(a, b), b) == Merge(a, b)
  {
    var l := Merge(Merge(a, b), b);
    var r := Merge(a, b);
    MergeFields(Merge(a, b), b);
    MergeFields(a, b);
    MergeIndexes(Merge(a, b), b);
    MergeIndexes(a, b);
    forall k | k in l.fields ensures k in r.fields && l.fields[k] == r.fields[k] {
      if k in b.fields {
      } else {
        OptionalizeIdempotent(a.fields[k]);
      }
    }
    assert l.fields == r.fields;
    assert l.indexes == r.indexes;
  }

  /** A destination whose every key the source overrides contributes
      nothing. */
  lemma MergeFullOverride(a: Shape, b: Shape)
    requires a.Object? && b.Object?
    requires a.fields.Keys <= b.fields.Keys && a.indexes.Keys <= b.indexes.Keys
    ensures Merge(a, b) == Merge(EmptyObject, b)
  {
    var l := Merge(a, b);
    var r := Merge(EmptyObject, b);
    MergeFields(a, b);
    MergeFields(EmptyObject, b);
    MergeIndexes(a, b);
    MergeIndexes(EmptyObject, b);
    assert l.fields == r.fields;
    assert l.indexes == r.indexes;
  }
}
