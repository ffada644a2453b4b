/** What `Jsonify` guarantees: its result is always a `JsonValue`, and it
    leaves a JSON value alone, so applying it twice changes nothing. */
module JsonLaws {
  import opened Wrappers
  import opened Shapes
  import opened Json

  /** A union is a JSON value exactly when all its alternatives are. */
  lemma {:induction false} JsonMembers(s: Shape)
    ensures IsJsonValue(s) <==> forall x | x in Members(s) :: IsJsonValue(x)
  {
    match s
    case Union(ms) =>
      forall m | m in ms ensures IsJsonValue(m) <==> forall x | x in Members(m) :: IsJsonValue(x) {
        JsonMembers(m);
      }
      if IsJsonValue(s) {
        forall x | x in Members(s) ensures IsJsonValue(x) {
          var m :| m in ms && x in Members(m);
        }
      } else {
        var m :| m in ms && !IsJsonValue(m);
        var x :| x in Members(m) && !IsJsonValue(x);
        assert x in Members(s);
      }
    case _ =>
  }

  lemma MkUnionJson(ms: set<Shape>)
    ensures IsJsonValue(MkUnion(ms)) <==> forall m | m in ms :: IsJsonValue(m)
  {
    JsonMembers(MkUnion(ms));
    assert Members(MkUnion(ms)) == Flatten(ms);
    forall m | m in ms ensures IsJsonValue(m) <==> forall x | x in Members(m) :: IsJsonValue(x) {
      JsonMembers(m);
    }
    if !forall m | m in ms :: IsJsonValue(m) {
      var m :| m in ms && !IsJsonValue(m);
      var x :| x in Members(m) && !IsJsonValue(x);
      assert x in Flatten(ms);
    }
  }

  /** Every `Jsonify<T>` is assignable to `JsonValue` (provided `unknown` does
      not occur in `T`, which `Jsonify` passes through). */
  lemma {:induction false} JsonifyIsJson(s: Shape)
    requires NoUnknown(s)
    ensures IsJsonValue(Jsonify(s))
    decreases s, 1
  {
    match s
    case Array(e) => JsonifyElementIsJson(e);
    case Tuple(es, rest) => TupleIsJson(es, rest);
    case Object(fs, ix) => ObjectCaseIsJson(fs, ix);
    case Union(ms) => UnionIsJson(ms);
    case Intersection(ps) => IntersectionIsJson(ps);
    case _ => AtomIsJson(s);
  }

  lemma {:induction false} IntersectionIsJson(ps: set<Shape>)
    requires NoUnknown(Intersection(ps))
    ensures IsJsonValue(Jsonify(Intersection(ps)))
    decreases Intersection(ps), 0
  {
    forall p | p in ps ensures IsJsonValue(Jsonify(p)) { JsonifyIsJson(p); }
    var p :| p in ps;
    assert Jsonify(p) in Jsonify(Intersection(ps)).parts;
  }

  /** Shapes without parts serialise to JSON values, `unknown` aside. */
  lemma AtomIsJson(s: Shape)
    requires NoUnknown(s)
    requires !s.Array? && !s.Tuple? && !s.Object? && !s.Union? && !s.Intersection?
    ensures IsJsonValue(Jsonify(s))
  {
  }

  lemma {:induction false} TupleIsJson(es: seq<Shape>, rest: Option<Shape>)
    requires NoUnknown(Tuple(es, rest))
    ensures IsJsonValue(Jsonify(Tuple(es, rest)))
    decreases Tuple(es, rest), 0
  {
    JsonifyOfTuple(es, rest);
    forall i | 0 <= i < |es| ensures IsJsonValue(JsonifyElement(es[i])) {
      JsonifyElementIsJson(es[i]);
    }
    if rest.Some? { JsonifyElementIsJson(rest.value); }
  }

  /** A tuple serialises element by element, the rest element included. */
  lemma JsonifyOfTuple(es: seq<Shape>, rest: Option<Shape>)
    ensures Jsonify(Tuple(es, rest)).Tuple?
    ensures |Jsonify(Tuple(es, rest)).elems| == |es|
    ensures forall i | 0 <= i < |es| :: Jsonify(Tuple(es, rest)).elems[i] == JsonifyElement(es[i])
    ensures Jsonify(Tuple(es, rest)).rest.Some? == rest.Some?
    ensures rest.Some? ==> Jsonify(Tuple(es, rest)).rest.value == JsonifyElement(rest.value)
  {
    assert Jsonify(Tuple(es, rest)) == JsonifyTuple(es, rest);
  }

  lemma {:induction false} ObjectCaseIsJson(fs: map<string, Field>, ix: map<IndexKind, Shape>)
    requires NoUnknown(Object(fs, ix))
    ensures IsJsonValue(Jsonify(Object(fs, ix)))
    decreases Object(fs, ix), 0
  {
    if HasToJson(fs) {
      JsonifyOfToJson(fs, ix);
      ToJsonNoUnknown(fs, ix);
      JsonifyIsJson(fs["toJSON"].value.result);
    } else {
      JsonifyOfObject(fs, ix);
      forall k | k in fs ensures IsJsonValue(Jsonify(fs[k].value)) { JsonifyIsJson(fs[k].value); }
      forall k | k in ix ensures IsJsonValue(Jsonify(ix[k])) { JsonifyIsJson(ix[k]); }
      ObjectIsJson(fs, ix);
    }
  }

  lemma {:induction false} UnionIsJson(ms: set<Shape>)
    requires NoUnknown(Union(ms))
    ensures IsJsonValue(Jsonify(Union(ms)))
    decreases Union(ms), 0
  {
    forall m | m in ms ensures IsJsonValue(Jsonify(m)) { JsonifyIsJson(m); }
    MkUnionJson(JsonifyEach(ms));
  }

  /** An object with a `toJSON()` method serialises as that method's result. */
  lemma JsonifyOfToJson(fs: map<string, Field>, ix: map<IndexKind, Shape>)
    requires HasToJson(fs)
    ensures Jsonify(Object(fs, ix)) == Jsonify(fs["toJSON"].value.result)
  {
    JsonifyOfObjectType(fs, ix);
  }

  lemma JsonifyOfObjectType(fs: map<string, Field>, ix: map<IndexKind, Shape>)
    ensures Jsonify(Object(fs, ix)) == JsonifyObjectType(fs, ix)
  {
  }

  lemma ToJsonNoUnknown(fs: map<string, Field>, ix: map<IndexKind, Shape>)
    requires HasToJson(fs) && NoUnknown(Object(fs, ix))
    ensures NoUnknown(fs["toJSON"].value.result)
  {
    assert NoUnknown(fs["toJSON"].value);
  }

  /** An object without one serialises property by property. */
  lemma JsonifyOfObject(fs: map<string, Field>, ix: map<IndexKind, Shape>)
    requires !HasToJson(fs)
    ensures Jsonify(Object(fs, ix)) == JsonifyObject(fs, ix)
  {
    JsonifyOfObjectType(fs, ix);
  }

  /** The object step of `JsonifyIsJson`. */
  lemma ObjectIsJson(fs: map<string, Field>, ix: map<IndexKind, Shape>)
    requires forall k | k in fs :: IsJsonValue(Jsonify(fs[k].value))
    requires forall k | k in ix :: IsJsonValue(Jsonify(ix[k]))
    ensures IsJsonValue(JsonifyObject(fs, ix))
  {
    var o := JsonifyObject(fs, ix);
    forall k | k in o.fields ensures IsJsonValue(o.fields[k].value) {
      assert JsonifyField(fs[k]).Some?;
    }
  }

  lemma {:induction false} JsonifyElementIsJson(e: Shape)
    requires NoUnknown(e)
    ensures IsJsonValue(JsonifyElement(e))
    decreases e, 2
  {
    if e.Union? {
      var ms := e.members;
      var js := set m | m in ms :: JsonifyElement(m);
      assert JsonifyElement(e) == MkUnion(js);
      forall j | j in js ensures IsJsonValue(j) {
        var m :| m in ms && j == JsonifyElement(m);
        JsonifyElementIsJson(m);
      }
      MkUnionJson(js);
    } else if IsNullInArray(e) {
      assert JsonifyElement(e) == Null;
    } else {
      assert JsonifyElement(e) == Jsonify(e);
      JsonifyIsJson(e);
    }
  }

  /** `Jsonify` leaves a normal JSON value unchanged. */
  lemma {:induction false} JsonifyFixpoint(s: Shape)
    requires IsJsonValue(s) && Normal(s)
    ensures Jsonify(s) == s
    decreases s, 1
  {
    match s
    case Array(e) => JsonifyElementFixpoint(e);
    case Tuple(es, rest) =>
      forall i | 0 <= i < |es| ensures JsonifyElement(es[i]) == es[i] {
        JsonifyElementFixpoint(es[i]);
      }
      if rest.Some? { JsonifyElementFixpoint(rest.value); }
    case Object(fs, ix) =>
      forall k | k in fs ensures Jsonify(fs[k].value) == fs[k].value { JsonifyFixpoint(fs[k].value); }
      forall k | k in ix ensures Jsonify(ix[k]) == ix[k] { JsonifyFixpoint(ix[k]); }
      JsonHasNoToJson(fs, ix);
      ObjectFixpoint(fs, ix);
    case Union(ms) =>
      forall m | m in ms ensures Jsonify(m) == m { JsonifyFixpoint(m); }
      assert JsonifyEach(ms) == ms;
      MkUnionOfFlat(ms);
    case Intersection(ps) =>
      forall p | p in ps ensures Jsonify(p) == p { JsonifyFixpoint(p); }
      assert (set p | p in ps :: Jsonify(p)) == ps;
    case _ =>
  }

  /** A property whose type is a JSON value other than `never` is kept, and
      keeps its optionality. */
  lemma FieldFixpoint(f: Field)
    requires IsJsonValue(f.value) && f.value != Never
    ensures KeepsProperty(f, f.value)
    ensures !HasSkippedMember(f.value)
  {
    JsonHasNoFunction(f.value);
    JsonHasNoSkipped(f.value);
  }

  lemma JsonHasNoFunction(v: Shape)
    requires IsJsonValue(v)
    ensures !HasFunctionMember(v)
  {
    JsonMembers(v);
  }

  lemma JsonHasNoSkipped(v: Shape)
    requires IsJsonValue(v)
    ensures !HasSkippedMember(v)
  {
    JsonMembers(v);
  }

  /** The object step of `JsonifyFixpoint`: a JSON object whose property
      types are fixed points is one. */
  lemma ObjectFixpoint(fs: map<string, Field>, ix: map<IndexKind, Shape>)
    requires IsJsonValue(Object(fs, ix)) && Normal(Object(fs, ix))
    requires forall k | k in fs :: Jsonify(fs[k].value) == fs[k].value
    requires forall k | k in ix :: Jsonify(ix[k]) == ix[k]
    ensures JsonifyObject(fs, ix) == Object(fs, ix)
  {
    assert forall k | k in fs :: IsJsonValue(fs[k].value) && fs[k].value != Never;
    FieldsFixpoint(fs, ix);
    IndexesFixpoint(fs, ix);
  }

  /** A JSON object has no `toJSON()` method. */
  lemma JsonHasNoToJson(fs: map<string, Field>, ix: map<IndexKind, Shape>)
    requires IsJsonValue(Object(fs, ix))
    ensures !HasToJson(fs)
  {
    if "toJSON" in fs { assert IsJsonValue(fs["toJSON"].value); }
  }

  lemma FieldsFixpoint(fs: map<string, Field>, ix: map<IndexKind, Shape>)
    requires forall k | k in fs :: IsJsonValue(fs[k].value) && fs[k].value != Never
    requires forall k | k in fs :: Jsonify(fs[k].value) == fs[k].value
    ensures JsonifyObject(fs, ix).fields == fs
  {
    forall k | k in fs ensures JsonifyField(fs[k]) == Some(fs[k]) {
      FieldFixpoint(fs[k]);
      JsonifyFieldUnchanged(fs[k]);
    }
    FieldsKept(fs, ix);
  }

  /** When every property is kept as it is, so is the object's property map. */
  lemma FieldsKept(fs: map<string, Field>, ix: map<IndexKind, Shape>)
    requires forall k | k in fs :: JsonifyField(fs[k]) == Some(fs[k])
    ensures JsonifyObject(fs, ix).fields == fs
  {
    MapsEqual(JsonifyObject(fs, ix).fields, fs);
  }

  lemma IndexesFixpoint(fs: map<string, Field>, ix: map<IndexKind, Shape>)
    requires SymbolIndex !in ix
    requires forall k | k in ix :: Jsonify(ix[k]) == ix[k]
    ensures JsonifyObject(fs, ix).indexes == ix
  {
  }

  lemma {:induction false} JsonifyElementFixpoint(e: Shape)
    requires IsJsonValue(e) && Normal(e)
    ensures JsonifyElement(e) == e
    decreases e, 2
  {
    if e.Union? {
      var ms := e.members;
      forall m | m in ms ensures JsonifyElement(m) == m { JsonifyElementFixpoint(m); }
      assert (set m | m in ms :: JsonifyElement(m)) == ms;
      MkUnionOfFlat(ms);
    } else {
      assert !IsNullInArray(e);
      JsonifyFixpoint(e);
    }
  }

  /** `Jsonify` produces normal shapes. */
  lemma {:induction false} JsonifyNormal(s: Shape)
    ensures Normal(Jsonify(s))
    decreases s, 1
  {
    match s
    case Array(e) => JsonifyElementNormal(e);
    case Tuple(es, rest) => TupleNormal(es, rest);
    case Object(fs, ix) => ObjectCaseNormal(fs, ix);
    case Union(ms) => UnionNormal(ms);
    case Intersection(ps) => IntersectionNormal(ps);
    case _ => AtomNormal(s);
  }

  lemma {:induction false} IntersectionNormal(ps: set<Shape>)
    ensures Normal(Jsonify(Intersection(ps)))
    decreases Intersection(ps), 0
  {
    forall p | p in ps ensures Normal(Jsonify(p)) { JsonifyNormal(p); }
  }

  /** Shapes without parts serialise to normal shapes. */
  lemma AtomNormal(s: Shape)
    requires !s.Array? && !s.Tuple? && !s.Object? && !s.Union? && !s.Intersection?
    ensures Normal(Jsonify(s))
  {
  }

  lemma {:induction false} TupleNormal(es: seq<Shape>, rest: Option<Shape>)
    ensures Normal(Jsonify(Tuple(es, rest)))
    decreases Tuple(es, rest), 0
  {
    forall i | 0 <= i < |es| ensures Normal(JsonifyElement(es[i])) {
      JsonifyElementNormal(es[i]);
    }
    if rest.Some? { JsonifyElementNormal(rest.value); }
  }

  lemma {:induction false} ObjectCaseNormal(fs: map<string, Field>, ix: map<IndexKind, Shape>)
    ensures Normal(Jsonify(Object(fs, ix)))
    decreases Object(fs, ix), 0
  {
    if HasToJson(fs) {
      JsonifyOfToJson(fs, ix);
      JsonifyNormal(fs["toJSON"].value.result);
    } else {
      JsonifyOfObject(fs, ix);
      forall k | k in fs ensures Normal(Jsonify(fs[k].value)) { JsonifyNormal(fs[k].value); }
      forall k | k in ix ensures Normal(Jsonify(ix[k])) { JsonifyNormal(ix[k]); }
      ObjectNormal(fs, ix);
    }
  }

  lemma {:induction false} UnionNormal(ms: set<Shape>)
    ensures Normal(Jsonify(Union(ms)))
    decreases Union(ms), 0
  {
    forall m | m in ms ensures Normal(Jsonify(m)) { JsonifyNormal(m); }
    MkUnionNormal(JsonifyEach(ms));
  }

  /** The object step of `JsonifyNormal`. */
  lemma ObjectNormal(fs: map<string, Field>, ix: map<IndexKind, Shape>)
    requires forall k | k in fs :: Normal(Jsonify(fs[k].value))
    requires forall k | k in ix :: Normal(Jsonify(ix[k]))
    ensures Normal(JsonifyObject(fs, ix))
  {
    var o := JsonifyObject(fs, ix);
    forall k | k in o.fields ensures o.fields[k].value != Never && Normal(o.fields[k].value) {
      assert JsonifyField(fs[k]).Some?;
    }
  }

  lemma {:induction false} JsonifyElementNormal(e: Shape)
    ensures Normal(JsonifyElement(e))
    decreases e, 2
  {
    if e.Union? {
      var js := set m | m in e.members :: JsonifyElement(m);
      forall j | j in js ensures Normal(j) {
        var m :| m in e.members && j == JsonifyElement(m);
        JsonifyElementNormal(m);
      }
      MkUnionNormal(js);
    } else if !IsNullInArray(e) {
      JsonifyNormal(e);
    }
  }

  /** Serialising a parsed JSON text again gives the same type:
      `Jsonify<Jsonify<T>>` is `Jsonify<T>`. */
  lemma JsonifyIdempotent(s: Shape)
    requires NoUnknown(s)
    ensures Jsonify(Jsonify(s)) == Jsonify(s)
  {
    JsonifyIsJson(s);
    JsonifyNormal(s);
    JsonifyFixpoint(Jsonify(s));
  }

  /** `Jsonify` of an object works property by property: adding a property
      to an object adds at most that property to its serialisation. */
  lemma {:induction false} JsonifyAddField(fs: map<string, Field>, ix: map<IndexKind, Shape>, k: string, f: Field)
    requires k !in fs
    ensures JsonifyObject(fs[k := f], ix).indexes == JsonifyObject(fs, ix).indexes
    ensures JsonifyObject(fs[k := f], ix).fields
         == if JsonifyField(f).Some? then JsonifyObject(fs, ix).fields[k := JsonifyField(f).value]
            else JsonifyObject(fs, ix).fields
  {
    var fs' := fs[k := f];
    var a := JsonifyObject(fs', ix).fields;
    var b := JsonifyObject(fs, ix).fields;
    if JsonifyField(f).Some? {
      MapsEqual(a, b[k := JsonifyField(f).value]);
    } else {
      MapsEqual(a, b);
    }
  }

  /** A union serialises alternative by alternative. */
  lemma JsonifyUnion(ms: set<Shape>)
    ensures Jsonify(Union(ms)) == MkUnion(JsonifyEach(ms))
  {
  }

  lemma JsonifyEachPair(a: Shape, b: Shape)
    ensures JsonifyEach({a, b}) == {Jsonify(a), Jsonify(b)}
  {
  }

  lemma JsonifyEachTriple(a: Shape, b: Shape, c: Shape)
    ensures JsonifyEach({a, b, c}) == {Jsonify(a), Jsonify(b), Jsonify(c)}
  {
  }

  /** A property is kept exactly when no alternative is a function and its
      serialised type is not `never`. */
  lemma JsonifyFieldKept(f: Field, v: Shape)
    requires Jsonify(f.value) == v && v != Never && !HasFunctionMember(f.value)
    ensures JsonifyField(f) == Some(Field(f.optional || HasSkippedMember(f.value), v))
  {
  }

  /** A property that may be a function is dropped. */
  lemma JsonifyFieldDropped(f: Field)
    requires HasFunctionMember(f.value)
    ensures JsonifyField(f).None?
  {
  }

  /** A property without skipped or function alternatives that serialises
      to itself is kept as it is. */
  lemma JsonifyFieldUnchanged(f: Field)
    requires Jsonify(f.value) == f.value && f.value != Never
    requires !HasFunctionMember(f.value) && !HasSkippedMember(f.value)
    ensures JsonifyField(f) == Some(f)
  {
  }
}
