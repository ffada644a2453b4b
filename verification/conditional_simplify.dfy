/**
 `ConditionalSimplify<T, Exclude, Include>` and `ConditionalSimplifyDeep`: a
 shape that passes the filters is replaced by the identity mapped type
 `{[K in keyof T]: T[K]}`, which turns an intersection of object types into
 one object type and a function type into `{}`. Both distribute over unions.

 Whether `T extends Exclude` or `T extends Include` holds is decided by the
 compiler's assignability relation; here the two filters are parameters. The
 defaults are `never` (nothing is excluded) and `unknown` (everything is
 included).
 */
module Simplification {
  import opened Wrappers
  import opened Shapes

  /** `T extends X` for one filter `X`. */
  type Filter = Shape -> bool

  /** `ExcludeType = never`. */
  function NoneExcluded(s: Shape): bool { false }

  /** `IncludeType = unknown`. */
  function AllIncluded(s: Shape): bool { true }

  /** The largest number of a finite set, 0 for the empty set. */
  ghost function MaxOf(xs: set<nat>): (m: nat)
    ensures forall x | x in xs :: x <= m
    ensures xs != {} ==> m in xs
    ensures xs == {} ==> m == 0
  {
    if xs == {} then 0
    else
      var x :| x in xs;
      var rest := MaxOf(xs - {x});
      assert forall y | y in xs :: y == x || y in xs - {x};
      if x < rest then rest else x
  }

  /** The nesting depth of a shape. */
  ghost function Depth(s: Shape): nat
    decreases s, 1
  {
    match s
    case MapOf(k, v) => 1 + MaxOf({Depth(k), Depth(v)})
    case SetOf(e) => 1 + Depth(e)
    case Function(r) => 1 + Depth(r)
    case Array(e) => 1 + Depth(e)
    case Tuple(es, rest) =>
      1 + MaxOf((set i | 0 <= i < |es| :: Depth(es[i])) + (if rest.Some? then {Depth(rest.value)} else {}))
    case Object(fs, ix) => 1 + MaxOf(PartDepths(fs, ix))
    case Union(_) => 1 + MaxOf(ChildDepths(s))
    case Intersection(_) => 1 + MaxOf(ChildDepths(s))
    case _ => 0
  }

  /** The depths of the alternatives of a union or the parts of an
      intersection. */
  ghost function ChildDepths(s: Shape): set<nat>
    requires s.Union? || s.Intersection?
    decreases s, 0
  {
    if s.Union? then set m | m in s.members :: Depth(m)
    else set p | p in s.parts :: Depth(p)
  }

  /** The depths of the property types and index signatures of an object
      type. */
  ghost function PartDepths(fs: map<string, Field>, ix: map<IndexKind, Shape>): set<nat>
    decreases Object(fs, ix), 0
  {
    (set k | k in fs :: Depth(fs[k].value)) + (set k | k in ix :: Depth(ix[k]))
  }

  predicate AllObjects(ps: set<Shape>)
  {
    forall p | p in ps :: p.Object?
  }

  /** The literal keys of an intersection of object types. */
  function FieldKeys(ps: set<Shape>): set<string>
  {
    set p, k | p in ps && p.Object? && k in p.fields :: k
  }

  /** The index-signature keys of an intersection of object types. */
  function IndexKeys(ps: set<Shape>): set<IndexKind>
  {
    set p, k | p in ps && p.Object? && k in p.indexes :: k
  }

  /** `A & B` for a set of types; a single type stands for itself. */
  function MkIntersection(vs: set<Shape>): (r: Shape)
    ensures |vs| == 1 ==> vs == {r}
    ensures |vs| != 1 ==> r == Intersection(vs)
  {
    if |vs| == 1 then Only(vs) else Intersection(vs)
  }

  /** The parts of an intersection that declare the literal key `k`. */
  function DeclaringParts(ps: set<Shape>, k: string): set<Shape>
  {
    set p | p in ps && p.Object? && k in p.fields
  }

  /** Property `k` of an intersection: optional only when every part that
      declares it declares it optional, typed as the intersection of the
      parts' types. */
  function CombineField(ps: set<Shape>, k: string): Field
  {
    Field(forall p | p in DeclaringParts(ps, k) :: p.fields[k].optional,
          MkIntersection(set p | p in DeclaringParts(ps, k) :: p.fields[k].value))
  }

  function CombineIndex(ps: set<Shape>, k: IndexKind): Shape
  {
    MkIntersection(set p | p in ps && p.Object? && k in p.indexes :: p.indexes[k])
  }

  /** The object type an intersection of object types maps to. */
  function Combine(ps: set<Shape>): (r: Shape)
    ensures r.Object?
    ensures r.fields.Keys == FieldKeys(ps) && r.indexes.Keys == IndexKeys(ps)
  {
    Object(map k | k in FieldKeys(ps) :: CombineField(ps, k),
           map k | k in IndexKeys(ps) :: CombineIndex(ps, k))
  }

  /** `{[K in keyof T]: T[K]}` for a shape that is not a union. */
  function MapSelf(s: Shape): (r: Shape)
    requires !s.Union?
    ensures !r.Union?
    ensures s.Function? ==> r == EmptyObject
    ensures s.Intersection? && s.parts != {} && AllObjects(s.parts) ==> r == Combine(s.parts)
    ensures !r.Function? && !(r.Intersection? && r.parts != {} && AllObjects(r.parts))
  {
    match s
    case Function(_) => EmptyObject
    case Intersection(ps) => if ps != {} && AllObjects(ps) then Combine(ps) else s
    case _ => s
  }

  /** An alternative `ConditionalSimplify` has nothing left to do with: the
      filters leave it alone, or it is neither a function type nor an
      intersection of object types. */
  predicate Simplified(x: Shape, ex: Filter, inc: Filter)
  {
    ex(x) || !inc(x) || (!x.Function? && !(x.Intersection? && x.parts != {} && AllObjects(x.parts)))
  }

  /** `ConditionalSimplify` of a shape that is not a union. */
  function SimplifyOne(s: Shape, ex: Filter, inc: Filter): (r: Shape)
    requires !s.Union?
    ensures !r.Union?
    ensures ex(s) || !inc(s) ==> r == s
    ensures !ex(s) && inc(s) ==> r == MapSelf(s)
    ensures Simplified(r, ex, inc)
  {
    if ex(s) || !inc(s) then s else MapSelf(s)
  }

  /** `ConditionalSimplify<T, Exclude, Include>`, distributed over the
      alternatives of a union. */
  function Simplify(s: Shape, ex: Filter, inc: Filter): (r: Shape)
    ensures !s.Union? ==> !r.Union?
    ensures forall x | x in Members(r) :: Simplified(x, ex, inc)
  {
    if s.Union? then
      var xs := set x | x in Members(s) :: SimplifyOne(x, ex, inc);
      assert forall y | y in Flatten(xs) :: Simplified(y, ex, inc) by {
        forall y | y in Flatten(xs) ensures Simplified(y, ex, inc) {
          var x :| x in xs && y in Members(x);
        }
      }
      MkUnion(xs)
    else SimplifyOne(s, ex, inc)
  }

  lemma DepthOfMembers(ms: set<Shape>)
    ensures forall m | m in ms :: Depth(m) < Depth(Union(ms))
  {
    var ds := ChildDepths(Union(ms));
    assert Depth(Union(ms)) == 1 + MaxOf(ds);
    forall m | m in ms ensures Depth(m) < Depth(Union(ms)) {
      assert Depth(m) in ds;
    }
  }

  lemma DepthOfFields(fs: map<string, Field>, ix: map<IndexKind, Shape>)
    ensures forall k | k in fs :: Depth(fs[k].value) < Depth(Object(fs, ix))
    ensures forall k | k in ix :: Depth(ix[k]) < Depth(Object(fs, ix))
  {
    var ds := PartDepths(fs, ix);
    assert Depth(Object(fs, ix)) == 1 + MaxOf(ds);
    forall k | k in fs ensures Depth(fs[k].value) < Depth(Object(fs, ix)) {
      assert Depth(fs[k].value) in ds;
    }
    forall k | k in ix ensures Depth(ix[k]) < Depth(Object(fs, ix)) {
      assert Depth(ix[k]) in ds;
    }
  }

  lemma DepthOfElements(es: seq<Shape>, rest: Option<Shape>)
    ensures forall i | 0 <= i < |es| :: Depth(es[i]) < Depth(Tuple(es, rest))
    ensures rest.Some? ==> Depth(rest.value) < Depth(Tuple(es, rest))
  {
    var ds := (set i | 0 <= i < |es| :: Depth(es[i])) + (if rest.Some? then {Depth(rest.value)} else {});
    forall i | 0 <= i < |es| ensures Depth(es[i]) < Depth(Tuple(es, rest)) {
      assert Depth(es[i]) in ds;
    }
    if rest.Some? {
      assert Depth(rest.value) in ds;
    }
  }

  /** Every set of numbers below `b` has its largest number below `b`. */
  lemma MaxOfBelow(xs: set<nat>, b: nat)
    requires forall x | x in xs :: x <= b
    ensures MaxOf(xs) <= b
  {
  }

  /** Depth of the intersection of some properties of the parts. */
  lemma DepthOfMkIntersection(vs: set<Shape>, b: nat)
    requires vs != {} && forall v | v in vs :: Depth(v) + 1 <= b
    ensures Depth(MkIntersection(vs)) <= b
  {
    if |vs| != 1 {
      MaxOfBelow(set v | v in vs :: Depth(v), b - 1);
    } else {
      var v :| v in vs;
    }
  }

  lemma DepthOfCombineField(ps: set<Shape>, k: string, b: nat)
    requires AllObjects(ps) && k in FieldKeys(ps)
    requires forall p | p in ps :: Depth(p) <= b
    ensures Depth(CombineField(ps, k).value) <= b
  {
    var vs := set p | p in DeclaringParts(ps, k) :: p.fields[k].value;
    var p0, k0 :| p0 in ps && p0.Object? && k0 in p0.fields && k == k0;
    assert p0.fields[k].value in vs;
    forall v | v in vs ensures Depth(v) + 1 <= b {
      var p :| p in DeclaringParts(ps, k) && v == p.fields[k].value;
      DepthOfFields(p.fields, p.indexes);
    }
    DepthOfMkIntersection(vs, b);
  }

  lemma DepthOfCombineIndex(ps: set<Shape>, k: IndexKind, b: nat)
    requires AllObjects(ps) && k in IndexKeys(ps)
    requires forall p | p in ps :: Depth(p) <= b
    ensures Depth(CombineIndex(ps, k)) <= b
  {
    var vs := set p | p in ps && p.Object? && k in p.indexes :: p.indexes[k];
    var p0, k0 :| p0 in ps && p0.Object? && k0 in p0.indexes && k == k0;
    assert p0.indexes[k] in vs;
    forall v | v in vs ensures Depth(v) + 1 <= b {
      var p :| p in ps && p.Object? && k in p.indexes && v == p.indexes[k];
      DepthOfFields(p.fields, p.indexes);
    }
    DepthOfMkIntersection(vs, b);
  }

  /** Combining the parts of an intersection does not make it deeper. */
  lemma DepthOfCombine(ps: set<Shape>)
    requires AllObjects(ps)
    ensures Depth(Combine(ps)) <= Depth(Intersection(ps))
  {
    var ds := ChildDepths(Intersection(ps));
    var b := MaxOf(ds);
    assert Depth(Intersection(ps)) == 1 + b;
    var c := Combine(ps);
    forall p | p in ps ensures Depth(p) <= b {
      assert Depth(p) in ds;
    }
    forall k | k in c.fields ensures Depth(c.fields[k].value) <= b {
      DepthOfCombineField(ps, k, b);
    }
    forall k | k in c.indexes ensures Depth(c.indexes[k]) <= b {
      DepthOfCombineIndex(ps, k, b);
    }
    DepthOfObjectBelow(c.fields, c.indexes, b);
  }

  lemma DepthOfObjectBelow(fs: map<string, Field>, ix: map<IndexKind, Shape>, b: nat)
    requires forall k | k in fs :: Depth(fs[k].value) <= b
    requires forall k | k in ix :: Depth(ix[k]) <= b
    ensures Depth(Object(fs, ix)) <= b + 1
  {
    var ds := PartDepths(fs, ix);
    forall x | x in ds ensures x <= b {
      if k :| k in fs && x == Depth(fs[k].value) {
      } else {
        var k :| k in ix && x == Depth(ix[k]);
      }
    }
    MaxOfBelow(ds, b);
    assert Depth(Object(fs, ix)) == 1 + MaxOf(ds);
  }

  /** `ConditionalSimplifyDeep<T, Exclude, Include>`: like `Simplify`, and
      the mapped type recurses into property types and array elements. */
  function Deep(s: Shape, ex: Filter, inc: Filter): (r: Shape)
    decreases Depth(s), 2
    ensures !s.Union? ==> !r.Union?
    ensures !s.Union? && (ex(s) || !inc(s)) ==> r == s
    ensures !s.Union? && !ex(s) && inc(s) ==> r == DeepMap(s, ex, inc)
    ensures forall x | x in Members(r) :: Simplified(x, ex, inc)
  {
    match s
    case Union(ms) =>
      DepthOfMembers(ms);
      var rs := set m | m in ms :: Deep(m, ex, inc);
      assert forall y | y in Flatten(rs) :: Simplified(y, ex, inc);
      MkUnion(rs)
    case _ => if ex(s) || !inc(s) then s else DeepMap(s, ex, inc)
  }

  /** The deep identity mapped type of a shape that is not a union. */
  function DeepMap(s: Shape, ex: Filter, inc: Filter): (r: Shape)
    requires !s.Union?
    decreases Depth(s), 1
    ensures !r.Union?
    ensures s.Function? ==> r == EmptyObject
    ensures !r.Function? && !(r.Intersection? && r.parts != {} && AllObjects(r.parts))
  {
    match s
    case Function(_) => EmptyObject
    case Object(fs, ix) => DeepObject(fs, ix, ex, inc)
    case Intersection(ps) =>
      if ps != {} && AllObjects(ps) then
        DepthOfCombine(ps);
        var c := Combine(ps);
        DeepObject(c.fields, c.indexes, ex, inc)
      else s
    case Array(e) => Array(Deep(e, ex, inc))
    case Tuple(es, rest) =>
      DepthOfElements(es, rest);
      Tuple(seq(|es|, i requires 0 <= i < |es| => Deep(es[i], ex, inc)),
            if rest.Some? then Some(Deep(rest.value, ex, inc)) else None)
    case _ => s
  }

  /** The deep mapped type of an object type: every property and index
      signature keeps its key, and its type is simplified in turn. */
  function DeepObject(fs: map<string, Field>, ix: map<IndexKind, Shape>, ex: Filter, inc: Filter): (r: Shape)
    decreases Depth(Object(fs, ix)), 0
    ensures r.Object? && r.fields.Keys == fs.Keys && r.indexes.Keys == ix.Keys
  {
    DepthOfFields(fs, ix);
    Object(map k | k in fs :: Field(fs[k].optional, Deep(fs[k].value, ex, inc)),
           map k | k in ix :: Deep(ix[k], ex, inc))
  }
}
