/**
 Union utilities: `TupleToUnion`, the union of the elements of a tuple or
 array type, and `LiteralToPrimitive`, which widens every literal alternative
 of a union to its primitive type and drops the alternatives that are not
 primitive at all.
 */
module Unions {
  import opened Wrappers
  import opened Shapes

  // ---------------------------------------------------------------- TupleToUnion

  /** The element types a tuple or array type can hold. */
  function Elements(s: Shape): set<Shape>
  {
    match s
    case Array(e) => {e}
    case Tuple(es, rest) =>
      (set i | 0 <= i < |es| :: es[i]) + (if rest.Some? then {rest.value} else {})
    case _ => {}
  }

  /** The element types of the tuple and array alternatives of `s`. */
  function ElementsOfMembers(s: Shape): set<Shape>
  {
    set m, e | m in Members(s) && e in Elements(m) :: e
  }

  /** `TupleToUnion<T>`: `T[number]`, distributed over the alternatives of
      `T`; an alternative that is neither a tuple nor an array contributes
      `never`. */
  function TupleToUnion(s: Shape): (r: Shape)
    ensures (forall m | m in Members(s) :: Elements(m) == {}) ==> r == Never
  {
    var es := ElementsOfMembers(s);
    assert (forall m | m in Members(s) :: Elements(m) == {}) ==> es == {};
    MkUnion(es)
  }

  // ---------------------------------------------------------------- LiteralToPrimitive

  /** The seven primitive types a literal can widen to. */
  const Primitives: set<Shape> := {Number, BigInt, String, Boolean, Symbol, Null, Undefined}

  /** `x extends p` for a non-union `x` and a primitive `p`: `x` is `p`
      itself or a literal of `p`. */
  predicate ExtendsPrimitive(x: Shape, p: Shape)
  {
    match p
    case Number => x.Number? || x.NumLit? || x.PositiveInfinity? || x.NegativeInfinity?
    case BigInt => x.BigInt? || x.BigIntLit?
    case String => x.String? || x.StrLit?
    case Boolean => x.Boolean? || x.BoolLit?
    case Symbol => x.Symbol? || x.UniqueSymbol?
    case Null => x.Null?
    case Undefined => x.Undefined?
    case _ => false
  }

  /** The conditional chain of `LiteralToPrimitive` on one alternative: the
      first primitive it extends, or `never`. */
  function Widen(x: Shape): (r: Shape)
    ensures r in Primitives || r == Never
  {
    match x
    case Number => Number
    case NumLit(_) => Number
    case PositiveInfinity => Number
    case NegativeInfinity => Number
    case BigInt => BigInt
    case BigIntLit(_) => BigInt
    case String => String
    case StrLit(_) => String
    case Boolean => Boolean
    case BoolLit(_) => Boolean
    case Symbol => Symbol
    case UniqueSymbol(_) => Symbol
    case Null => Null
    case Undefined => Undefined
    case _ => Never
  }

  /** Every alternative widened. */
  function Widened(ms: set<Shape>): set<Shape>
  {
    set x | x in ms :: Widen(x)
  }

  /** `LiteralToPrimitive<T>`, distributed over the alternatives of `T`. */
  function LiteralToPrimitive(s: Shape): (r: Shape)
    ensures Members(r) <= Primitives
  {
    var ws := Widened(Members(s));
    assert Flatten(ws) <= Primitives by {
      forall m | m in ws ensures Members(m) <= Primitives {
        if m == Never { assert Members(m) == {}; }
      }
    }
    MkUnion(ws)
  }
}
