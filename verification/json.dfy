/**
 `Jsonify<T>`: the type of `JSON.parse(JSON.stringify(v))` for a value `v` of
 type `T`, following SerializeJSONProperty, SerializeJSONObject and
 SerializeJSONArray (section 25.5.2 of ECMA-262), and `JsonValue`, the types
 whose values are JSON texts' values (section 3 of RFC 8259).
 */
module Json {
  import opened Wrappers
  import opened Shapes

  /** `JsonValue`: null, booleans, finite numbers, strings, and arrays and
      objects of JSON values. Object members may be optional; object keys are
      strings, so a symbol index signature is not allowed. */
  predicate IsJsonValue(s: Shape)
    ensures IsJsonValue(s) ==> forall x | x in Members(s) :: IsJsonKind(x)
  {
    match s
    case Null => true
    case Boolean => true
    case BoolLit(_) => true
    case Number => true
    case NumLit(_) => true
    case String => true
    case StrLit(_) => true
    case Array(e) => IsJsonValue(e)
    case Tuple(es, rest) =>
      (forall i | 0 <= i < |es| :: IsJsonValue(es[i])) && (rest.Some? ==> IsJsonValue(rest.value))
    case Object(fs, ix) =>
      (forall k | k in fs :: IsJsonValue(fs[k].value))
      && SymbolIndex !in ix
      && (forall k | k in ix :: IsJsonValue(ix[k]))
    case Union(ms) => forall m | m in ms :: IsJsonValue(m)
    case Intersection(ps) => ps != {} && forall p | p in ps :: IsJsonValue(p)
    case _ => false
  }

  /** The kinds of type a JSON text's value can have: `null`, booleans,
      numbers, strings, arrays, tuples and object types, and intersections of
      them. */
  predicate IsJsonKind(x: Shape)
  {
    x.Null? || x.Boolean? || x.BoolLit? || x.Number? || x.NumLit? || x.String? || x.StrLit?
    || x.Array? || x.Tuple? || x.Object? || x.Intersection?
  }

  /** Property values that `JSON.stringify` leaves out of an object without
      failing: `undefined` and symbols. */
  predicate IsSkipped(m: Shape)
  {
    m == Undefined || m == Symbol || m.UniqueSymbol?
  }

  predicate HasSkippedMember(v: Shape)
  {
    exists m | m in Members(v) :: IsSkipped(m)
  }

  function Unbox(b: BoxKind): Shape
  {
    match b
    case BoxedNumber => Number
    case BoxedString => String
    case BoxedBoolean => Boolean
  }

  /** Whether an object type has a `toJSON()` method, which `JSON.stringify`
      calls in place of serialising the object itself. */
  predicate HasToJson(fs: map<string, Field>)
  {
    "toJSON" in fs && !fs["toJSON"].optional && fs["toJSON"].value.Function?
  }

  /** A property survives serialisation when no alternative of its value is a
      function and some alternative serialises to something. */
  predicate KeepsProperty(f: Field, jsonified: Shape)
  {
    !HasFunctionMember(f.value) && jsonified != Never
  }

  /** `Jsonify<T>` for a value serialised on its own (or as an object member). */
  function Jsonify(s: Shape): (r: Shape)
    decreases s, 2
    ensures forall x | x in Members(r) :: IsJsonKind(x)
  {
    match s
    case Undefined => Never
    case Symbol => Never
    case UniqueSymbol(_) => Never
    case Function(_) => Never
    case BigInt => Never
    case BigIntLit(_) => Never
    case PositiveInfinity => Null
    case NegativeInfinity => Null
    case Boxed(b) => Unbox(b)
    case Date => String
    case RegExp => EmptyObject
    case TypedArray => Object(map[], map[StringIndex := Number])
    case MapOf(_, _) => EmptyObject
    case SetOf(_) => EmptyObject
    case Array(e) => Array(JsonifyElement(e))
    case Tuple(es, rest) => JsonifyTuple(es, rest)
    case Object(fs, ix) => JsonifyObjectType(fs, ix)
    case Union(ms) => MkUnion(JsonifyEach(ms))
    case Intersection(ps) => Intersection(JsonifyParts(ps))
    case _ => s
  }

  /** A tuple type: every element serialised as an array element. */
  function JsonifyTuple(es: seq<Shape>, rest: Option<Shape>): Shape
    decreases Tuple(es, rest), 0
  {
    Tuple(seq(|es|, i requires 0 <= i < |es| => JsonifyElement(es[i])),
          if rest.Some? then Some(JsonifyElement(rest.value)) else None)
  }

  /** The serialised types of the parts of an intersection. */
  function JsonifyParts(ps: set<Shape>): set<Shape>
    decreases Intersection(ps), 0
  {
    set p | p in ps :: Jsonify(p)
  }

  /** The serialised types of the alternatives of a union. */
  function JsonifyEach(ms: set<Shape>): (r: set<Shape>)
    decreases Union(ms), 0
    ensures forall j | j in r :: forall x | x in Members(j) :: IsJsonKind(x)
  {
    set m | m in ms :: Jsonify(m)
  }

  /** An object type: what its `toJSON()` method returns, if it has one, and
      its serialised properties otherwise. */
  function JsonifyObjectType(fs: map<string, Field>, ix: map<IndexKind, Shape>): (r: Shape)
    decreases Object(fs, ix), 1
    ensures forall x | x in Members(r) :: IsJsonKind(x)
  {
    if HasToJson(fs) then Jsonify(fs["toJSON"].value.result) else JsonifyObject(fs, ix)
  }

  /** An object without `toJSON()`: properties whose type may be a function or
      is `never` once serialised are dropped, properties that may be
      `undefined` or a symbol become optional, symbol keys are dropped. */
  function JsonifyObject(fs: map<string, Field>, ix: map<IndexKind, Shape>): Shape
    decreases Object(fs, ix), 0
  {
    Object(
      map k | k in fs && JsonifyField(fs[k]).Some? :: JsonifyField(fs[k]).value,
      map k | k in ix && k != SymbolIndex :: Jsonify(ix[k]))
  }

  /** One property of an object without `toJSON()`: kept with its serialised
      type, and optional when it may be skipped; or dropped. */
  function JsonifyField(f: Field): Option<Field>
    decreases f, 0
  {
    var v := Jsonify(f.value);
    if KeepsProperty(f, v) then Some(Field(f.optional || HasSkippedMember(f.value), v)) else None
  }

  /** Array elements that `JSON.stringify` writes as `null`. */
  predicate IsNullInArray(e: Shape)
  {
    IsSkipped(e) || e.Function?
  }

  /** `Jsonify` of an array element: what would be left out becomes `null`. */
  function JsonifyElement(e: Shape): Shape
    decreases e, 3
  {
    if e.Union? then MkUnion(set m | m in e.members :: JsonifyElement(m))
    else if IsNullInArray(e) then Null
    else Jsonify(e)
  }
}
