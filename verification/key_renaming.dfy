/**
 Key remapping `{[K in keyof T as F<K>]: T[K]}` and the recursive
 `PascalCasedPropertiesDeep<T>`, which renames every key with `PascalCase`
 at every level, leaves functions, `Date` and `RegExp` alone and recurses
 into arrays and sets.
 */
module KeyRenaming {
  import opened Wrappers
  import opened Shapes
  import opened CaseConversion
  import opened Simplification

  /** The keys of `fs` that `f` sends to `n`. */
  function Preimage(fs: map<string, Field>, f: string -> string, n: string): set<string>
  {
    set k | k in fs && f(k) == n
  }

  lemma SingleKey(ks: set<string>)
    requires |ks| == 1
    ensures exists k :: ks == {k}
  {
    var k :| k in ks;
    assert |ks - {k}| == 0;
    assert ks == {k};
  }

  /** The element of a one-element set of keys. */
  function TheKey(ks: set<string>): (k: string)
    requires |ks| == 1
    ensures ks == {k}
  {
    SingleKey(ks);
    var k :| ks == {k}; k
  }

  /** The property that several keys renamed to the same name become: a
      union of their types, optional only if all of them are. */
  function RenamedField(fs: map<string, Field>, f: string -> string, n: string): Field
  {
    var ks := Preimage(fs, f, n);
    if |ks| == 1 then fs[TheKey(ks)]
    else Field(forall k | k in ks :: fs[k].optional, MkUnion(set k | k in ks :: fs[k].value))
  }

  /** `{[K in keyof T as F<K>]: T[K]}` on the properties of an object type. */
  function RenameKeys(fs: map<string, Field>, f: string -> string): (r: map<string, Field>)
    ensures r.Keys == set k | k in fs :: f(k)
  {
    map n | n in (set k | k in fs :: f(k)) :: RenamedField(fs, f, n)
  }

  /** `f` gives different keys of `fs` different names. */
  predicate InjectiveOn(fs: map<string, Field>, f: string -> string)
  {
    forall j, k | j in fs && k in fs && j != k :: f(j) != f(k)
  }

  /** `CamelCasedProperties` of one alternative: an object type, or an
      intersection of object types taken as one, gets its keys renamed by
      `CamelCase`; any other type is returned as it is. */
  function CamelCasedOne(x: Shape): (r: Shape)
    requires !x.Union?
    ensures !r.Union?
  {
    match x
    case Object(fs, ix) => Object(RenameKeys(fs, CamelCase), ix)
    case Intersection(ps) =>
      if ps != {} && AllObjects(ps) then
        var c := Combine(ps);
        Object(RenameKeys(c.fields, CamelCase), c.indexes)
      else x
    case _ => x
  }

  /** The alternatives of `s`, each with its keys camel-cased. */
  function CamelCasedMembers(s: Shape): (rs: set<Shape>)
    ensures forall y | y in rs :: !y.Union?
    ensures forall y | y in rs :: !y.Object? ==> y in Members(s)
    ensures forall x | x in Members(s) && x.Object? ::
              Object(RenameKeys(x.fields, CamelCase), x.indexes) in rs
  {
    set x | x in Members(s) :: CamelCasedOne(x)
  }

  lemma CamelCasedMembersFlat(rs: set<Shape>)
    requires forall y | y in rs :: !y.Union?
    ensures Flatten(rs) == rs
  {
    forall y | y in rs ensures Members(y) == {y} { }
  }

  lemma CamelCasedMembersOfObject(s: Shape)
    requires s.Object?
    ensures CamelCasedMembers(s) == {Object(RenameKeys(s.fields, CamelCase), s.indexes)}
  {
    assert Members(s) == {s};
  }

  /** `CamelCasedProperties<T>`, `{[K in keyof T as CamelCase<K>]: T[K]}`:
      the keys renamed by `CamelCase`, the types kept, applied to each
      alternative of a union. */
  function CamelCasedProperties(s: Shape): (r: Shape)
    ensures s.Object? ==> r.Object? && r.indexes == s.indexes
    ensures s.Object? ==> r.fields.Keys == set k | k in s.fields :: CamelCase(k)
    ensures forall y | y in Members(r) :: !y.Object? ==> y in Members(s)
  {
    var rs := CamelCasedMembers(s);
    CamelCasedMembersFlat(rs);
    var r := MkUnion(rs);
    assert Members(r) == rs;
    assert s.Object? ==> r == Object(RenameKeys(s.fields, CamelCase), s.indexes) by {
      if s.Object? {
        CamelCasedMembersOfObject(s);
        MkUnionSingle(rs, Object(RenameKeys(s.fields, CamelCase), s.indexes));
      }
    }
    r
  }

  /** Shapes `PascalCasedPropertiesDeep` returns as they are. */
  predicate KeptAsIs(s: Shape)
  {
    s.Function? || s.Date? || s.RegExp?
  }

  /** `PascalCasedPropertiesDeep<T>`, distributed over the alternatives of a
      union. A tuple is an array, so it becomes an array of the union of its
      converted elements. */
  function PascalCasedDeep(s: Shape): (r: Shape)
    decreases s, 2
    ensures KeptAsIs(s) ==> r == s
    ensures s.Array? ==> r.Array?
    ensures s.SetOf? ==> r.SetOf?
    ensures s.Tuple? ==> r.Array?
  {
    match s
    case Function(_) => s
    case Date => s
    case RegExp => s
    case Array(e) => Array(PascalCasedDeep(e))
    case Tuple(es, rest) =>
      Array(MkUnion((set i | 0 <= i < |es| :: PascalCasedDeep(es[i]))
                    + (if rest.Some? then {PascalCasedDeep(rest.value)} else {})))
    case SetOf(e) => SetOf(PascalCasedDeep(e))
    case Object(fs, ix) => PascalCasedObject(fs, ix)
    case Union(ms) => MkUnion(set m | m in ms :: PascalCasedDeep(m))
    case _ => s
  }

  /** The properties converted in place, then renamed by `PascalCase`. */
  function PascalCasedObject(fs: map<string, Field>, ix: map<IndexKind, Shape>): (r: Shape)
    decreases Object(fs, ix), 1
    ensures r.Object? && r.indexes.Keys == ix.Keys
    ensures r.fields.Keys == set k | k in fs :: PascalCase(k)
  {
    var converted := ConvertedProperties(fs, ix);
    Object(RenameKeys(converted, PascalCase), ConvertedIndexes(fs, ix))
  }

  /** Each index signature's value type converted. */
  function ConvertedIndexes(fs: map<string, Field>, ix: map<IndexKind, Shape>): (r: map<IndexKind, Shape>)
    decreases Object(fs, ix), 0
    ensures r.Keys == ix.Keys
  {
    map k | k in ix :: PascalCasedDeep(ix[k])
  }

  /** Each property converted in place, under its old key. */
  function ConvertedProperties(fs: map<string, Field>, ix: map<IndexKind, Shape>): (r: map<string, Field>)
    decreases Object(fs, ix), 0
    ensures r.Keys == fs.Keys
  {
    map k | k in fs :: Field(fs[k].optional, PascalCasedDeep(fs[k].value))
  }
}
