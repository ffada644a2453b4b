/** Laws of key remapping and `PascalCasedPropertiesDeep`. */
module KeyRenamingLaws {
  import opened Wrappers
  import opened Shapes
  import opened CaseConversion
  import opened CaseLaws
  import opened KeyRenaming

  /** When no two keys get the same name, every property keeps its type and
      optionality under its new name. */
  lemma RenameInjective(fs: map<string, Field>, f: string -> string, k: string)
    requires InjectiveOn(fs, f) && k in fs
    ensures f(k) in RenameKeys(fs, f) && RenameKeys(fs, f)[f(k)] == fs[k]
  {
    assert Preimage(fs, f, f(k)) == {k};
  }

  /** Two keys renamed to the same name, and no other, merge into one
      property: the union of their types, optional only if both are. */
  lemma RenameCollision(fs: map<string, Field>, f: string -> string, j: string, k: string)
    requires j in fs && k in fs && j != k && f(j) == f(k)
    requires forall i | i in fs && i != j && i != k :: f(i) != f(k)
    ensures RenameKeys(fs, f)[f(k)].optional == (fs[j].optional && fs[k].optional)
    ensures RenameKeys(fs, f)[f(k)].value == MkUnion({fs[j].value, fs[k].value})
  {
    var ks := Preimage(fs, f, f(k));
    assert ks == {j, k};
    assert (set i | i in ks :: fs[i].value) == {fs[j].value, fs[k].value};
  }

  /** Renaming every key to itself changes nothing. */
  lemma RenameFixedKeys(fs: map<string, Field>, f: string -> string)
    requires forall k | k in fs :: f(k) == k
    ensures RenameKeys(fs, f) == fs
  {
    var r := RenameKeys(fs, f);
    assert r.Keys == fs.Keys;
    forall k | k in fs ensures r[k] == fs[k] {
      RenameInjective(fs, f, k);
    }
    MapsEqual(r, fs);
  }

  /** The renamed properties are exactly `fs2` when no two keys share a name,
      each property is found under its new name and `fs2` has no other key. */
  lemma RenameKeysIs(fs: map<string, Field>, f: string -> string, fs2: map<string, Field>)
    requires InjectiveOn(fs, f)
    requires forall k | k in fs :: f(k) in fs2 && fs2[f(k)] == fs[k]
    requires fs2.Keys <= set k | k in fs :: f(k)
    ensures RenameKeys(fs, f) == fs2
  {
    var r := RenameKeys(fs, f);
    forall k | k in fs ensures r[f(k)] == fs2[f(k)] {
      RenameInjective(fs, f, k);
    }
    MapsEqual(r, fs2);
  }

  /** A renaming is injective on `fs` when its keys are listed in `ks` and
      sent to the pairwise different names `ns`. */
  lemma {:induction false} InjectiveByNames(fs: map<string, Field>, f: string -> string, ks: seq<string>, ns: seq<string>)
    requires |ks| == |ns|
    requires forall k | k in fs :: k in ks
    requires forall i | 0 <= i < |ks| :: f(ks[i]) == ns[i]
    requires forall i, j | 0 <= i < j < |ns| :: ns[i] != ns[j]
    ensures InjectiveOn(fs, f)
  {
    forall j, k | j in fs && k in fs && j != k ensures f(j) != f(k) {
      var a :| 0 <= a < |ks| && ks[a] == j;
      var b :| 0 <= b < |ks| && ks[b] == k;
      if a < b { assert ns[a] != ns[b]; } else { assert ns[b] != ns[a]; }
    }
  }

  /** `CamelCasedProperties` keeps each property's type under its camel-cased
      name. */
  lemma CamelCasedPropertiesKeepTypes(s: Shape, k: string)
    requires s.Object? && InjectiveOn(s.fields, CamelCase) && k in s.fields
    ensures CamelCase(k) in CamelCasedProperties(s).fields
    ensures CamelCasedProperties(s).fields[CamelCase(k)] == s.fields[k]
  {
    CamelCasedOfObject(s);
    RenameInjective(s.fields, CamelCase, k);
  }

  /** An object type gets its keys renamed and keeps its index signatures. */
  lemma CamelCasedOfObject(s: Shape)
    requires s.Object?
    ensures CamelCasedProperties(s) == Object(RenameKeys(s.fields, CamelCase), s.indexes)
  {
    var o := Object(RenameKeys(s.fields, CamelCase), s.indexes);
    CamelCasedMembersOfObject(s);
    CamelCasedMembersFlat({o});
    MkUnionSingle({o}, o);
  }

  /** No key of a converted object type starts with a lower-case letter or
      holds a delimiter. */
  lemma PascalCasedKeys(fs: map<string, Field>, ix: map<IndexKind, Shape>, n: string)
    requires n in PascalCasedDeep(Object(fs, ix)).fields
    ensures NoneIn(n, Delimiters)
    ensures |n| > 0 ==> !IsLower(n[0])
  {
    var k :| k in fs && PascalCase(k) == n;
    PascalCaseKeepsLetters(k);
  }

  /** When no two keys share a `PascalCase` name, each property is converted
      in place and moved to its new name. */
  lemma PascalCasedProperties(fs: map<string, Field>, ix: map<IndexKind, Shape>, k: string)
    requires InjectiveOn(fs, PascalCase) && k in fs
    ensures PascalCase(k) in PascalCasedDeep(Object(fs, ix)).fields
    ensures PascalCasedDeep(Object(fs, ix)).fields[PascalCase(k)]
         == Field(fs[k].optional, PascalCasedDeep(fs[k].value))
  {
    var converted := ConvertedProperties(fs, ix);
    PascalCasedOfObject(fs, ix);
    InjectiveOnSameKeys(fs, converted, PascalCase);
    RenameInjective(converted, PascalCase, k);
  }

  /** An object type is converted property by property and index by index. */
  lemma PascalCasedOfObject(fs: map<string, Field>, ix: map<IndexKind, Shape>)
    ensures PascalCasedDeep(Object(fs, ix)).Object?
    ensures PascalCasedDeep(Object(fs, ix)).fields == RenameKeys(ConvertedProperties(fs, ix), PascalCase)
    ensures PascalCasedDeep(Object(fs, ix)).indexes == ConvertedIndexes(fs, ix)
  {
    assert PascalCasedDeep(Object(fs, ix)) == PascalCasedObject(fs, ix);
  }

  lemma InjectiveOnSameKeys(fs: map<string, Field>, gs: map<string, Field>, f: string -> string)
    requires fs.Keys == gs.Keys && InjectiveOn(fs, f)
    ensures InjectiveOn(gs, f)
  {
  }

  /** Every key is already in `PascalCase`, at every level, and there is no
      tuple to turn into an array. */
  ghost predicate PascalKeyed(s: Shape)
    decreases s, 1
  {
    match s
    case Union(ms) => forall m | m in ms :: PascalKeyed(m)
    case Tuple(_, _) => false
    case Array(e) => PascalKeyed(e)
    case SetOf(e) => PascalKeyed(e)
    case Object(fs, ix) => PascalKeyedObject(fs, ix)
    case _ => true
  }

  ghost predicate PascalKeyedObject(fs: map<string, Field>, ix: map<IndexKind, Shape>)
    decreases Object(fs, ix), 0
  {
    (forall k | k in fs :: PascalCase(k) == k && PascalKeyed(fs[k].value))
    && (forall k | k in ix :: PascalKeyed(ix[k]))
  }

  /** `PascalCasedPropertiesDeep` leaves a normal shape whose keys are all in
      `PascalCase` alone. */
  lemma {:induction false} PascalCasedFixpoint(s: Shape)
    requires PascalKeyed(s) && Normal(s)
    ensures PascalCasedDeep(s) == s
    decreases s, 2
  {
    match s
    case Union(ms) =>
      forall m | m in ms ensures PascalCasedDeep(m) == m {
        PascalCasedFixpoint(m);
      }
      assert (set m | m in ms :: PascalCasedDeep(m)) == ms;
      MkUnionOfFlat(ms);
    case Array(e) => PascalCasedFixpoint(e);
    case SetOf(e) => PascalCasedFixpoint(e);
    case Object(fs, ix) => PascalCasedObjectFixpoint(fs, ix);
    case _ =>
  }

  lemma {:induction false} PascalCasedObjectFixpoint(fs: map<string, Field>, ix: map<IndexKind, Shape>)
    requires PascalKeyedObject(fs, ix) && Normal(Object(fs, ix))
    ensures PascalCasedObject(fs, ix) == Object(fs, ix)
    decreases Object(fs, ix), 1
  {
    ObjectPartsKeyed(fs, ix);
    ConvertedFixpoint(fs, ix);
    RenameFixedKeys(fs, PascalCase);
    PascalIndexesFixpoint(fs, ix);
    PascalCasedObjectParts(fs, ix);
  }

  lemma PascalCasedObjectParts(fs: map<string, Field>, ix: map<IndexKind, Shape>)
    ensures PascalCasedObject(fs, ix).fields == RenameKeys(ConvertedProperties(fs, ix), PascalCase)
    ensures PascalCasedObject(fs, ix).indexes == ConvertedIndexes(fs, ix)
  {
  }

  lemma {:induction false} ConvertedFixpoint(fs: map<string, Field>, ix: map<IndexKind, Shape>)
    requires forall k | k in fs :: PascalKeyed(fs[k].value) && Normal(fs[k].value)
    ensures ConvertedProperties(fs, ix) == fs
    decreases Object(fs, ix), 0
  {
    var converted := ConvertedProperties(fs, ix);
    forall k | k in fs ensures converted[k] == fs[k] {
      PascalCasedFixpoint(fs[k].value);
    }
    MapsEqual(converted, fs);
  }

  lemma {:induction false} PascalIndexesFixpoint(fs: map<string, Field>, ix: map<IndexKind, Shape>)
    requires forall k | k in ix :: PascalKeyed(ix[k]) && Normal(ix[k])
    ensures ConvertedIndexes(fs, ix) == ix
    decreases Object(fs, ix), 0
  {
    var ix2 := ConvertedIndexes(fs, ix);
    forall k | k in ix ensures ix2[k] == ix[k] {
      PascalCasedFixpoint(ix[k]);
    }
    MapsEqual(ix2, ix);
  }

  /** The property and index types of a `PascalCase`-keyed normal object are
      themselves `PascalCase`-keyed and normal. */
  lemma ObjectPartsKeyed(fs: map<string, Field>, ix: map<IndexKind, Shape>)
    requires PascalKeyedObject(fs, ix) && Normal(Object(fs, ix))
    ensures forall k | k in fs :: PascalCase(k) == k
    ensures forall k | k in fs :: PascalKeyed(fs[k].value) && Normal(fs[k].value)
    ensures forall k | k in ix :: PascalKeyed(ix[k]) && Normal(ix[k])
  {
  }
}
