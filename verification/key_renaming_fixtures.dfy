/** The `PascalCasedPropertiesDeep` and `CamelCasedProperties` examples of the
    type-fest test suite. */
module KeyRenamingFixtures {
  import opened Shapes
  import opened CaseConversion
  import opened CaseLaws
  import opened CamelCaseFixtures
  import opened KeyRenaming
  import opened KeyRenamingLaws

  function Req(v: Shape): Field { Field(false, v) }

  // ---------------------------------------------------------------- key names

  /** A single plain word is only capitalised. */
  lemma PascalOfPlain(a: string)
    requires Plain(a)
    ensures PascalCase(a) == Capitalize(a)
  {
    CamelCaseOfLowerWord(a);
  }

  /** A camel-cased key of two words, `a` then `w`, is its own `CamelCase`. */
  lemma CamelOfHump(a: string, c: char, b: string)
    requires Plain(a) && IsLower(a[0]) && IsLower(a[|a| - 1])
    requires IsUpper(c) && Plain(b)
    ensures CamelCase(a + ([c] + b)) == a + ([c] + b)
  {
    var w := [c] + b;
    var s := a + w;
    CapitalWord(c, b);
    PlainIsOneWord(a);
    WordsAcrossHump(a, w);
    assert s[0] == a[0];
    NotAllUpper(s, 0);
    CamelCaseOfTwo(s, a, w);
  }

  lemma CapitalizeAppend(x: string, y: string)
    requires |x| > 0
    ensures Capitalize(x + y) == Capitalize(x) + y
  {
    assert (x + y)[1..] == x[1..] + y;
  }

  /** A camel-cased key of two words: only the first letter is capitalised. */
  lemma PascalOfHump(a: string, c: char, b: string)
    requires Plain(a) && IsLower(a[0]) && IsLower(a[|a| - 1])
    requires IsUpper(c) && Plain(b)
    ensures PascalCase(a + [c] + b) == Capitalize(a) + [c] + b
  {
    var w := [c] + b;
    var s := a + w;
    assert a + [c] + b == s;
    CamelOfHump(a, c, b);
    CapitalizeAppend(a, w);
    assert PascalCase(s) == Capitalize(a) + w;
    assert Capitalize(a) + w == Capitalize(a) + [c] + b;
  }

  /** `PascalOfHump` with the key and its new name given whole. */
  lemma HumpKey(s: string, n: string, a: string, c: char, b: string)
    requires Plain(a) && IsLower(a[0]) && IsLower(a[|a| - 1])
    requires IsUpper(c) && Plain(b)
    requires s == a + [c] + b && n == Capitalize(a) + [c] + b
    ensures PascalCase(s) == n
  {
    PascalOfHump(a, c, b);
  }

  lemma HelloWorld() ensures PascalCase("helloWorld") == "HelloWorld"
  {
    HumpKey("helloWorld", "HelloWorld", "hello", 'W', "orld");
  }

  lemma FooBar() ensures PascalCase("fooBar") == "FooBar"
  {
    HumpKey("fooBar", "FooBar", "foo", 'B', "ar");
  }

  lemma UserId() ensures PascalCase("userId") == "UserId"
  {
    HumpKey("userId", "UserId", "user", 'I', "d");
  }

  lemma UserName() ensures PascalCase("userName") == "UserName"
  {
    HumpKey("userName", "UserName", "user", 'N', "ame");
  }

  lemma DateKey() ensures PascalCase("date") == "Date"
  {
    PascalOfPlain("date");
  }

  lemma RegExpKey() ensures PascalCase("regExp") == "RegExp"
  {
    HumpKey("regExp", "RegExp", "reg", 'E', "xp");
  }

  lemma UserInfo() ensures PascalCase("userInfo") == "UserInfo"
  {
    HumpKey("userInfo", "UserInfo", "user", 'I', "nfo");
  }

  lemma UserFriends() ensures PascalCase("userFriends") == "UserFriends"
  {
    HumpKey("userFriends", "UserFriends", "user", 'F', "riends");
  }

  // ---------------------------------------------------------------- object types

  /** An object type without index signatures converts to `fs2` when no two
      keys share a name, every property is converted under its new name and
      `fs2` has no other key. */
  lemma PascalCasedObjectIs(fs: map<string, Field>, fs2: map<string, Field>)
    requires InjectiveOn(fs, PascalCase)
    requires forall k | k in fs ::
               PascalCase(k) in fs2 && fs2[PascalCase(k)] == Field(fs[k].optional, PascalCasedDeep(fs[k].value))
    requires fs2.Keys <= set k | k in fs :: PascalCase(k)
    ensures PascalCasedDeep(Object(fs, map[])) == Object(fs2, map[])
  {
    var c := ConvertedProperties(fs, map[]);
    PascalCasedOfObject(fs, map[]);
    NoIndexesConverted(fs);
    InjectiveOnSameKeys(fs, c, PascalCase);
    assert (set k | k in c :: PascalCase(k)) == (set k | k in fs :: PascalCase(k));
    RenameKeysIs(c, PascalCase, fs2);
  }

  lemma NoIndexesConverted(fs: map<string, Field>)
    ensures ConvertedIndexes(fs, map[]) == map[]
  {
  }

  /** An object type with one property. */
  function Obj1(k: string, f: Field): Shape { Object(map[k := f], map[]) }

  lemma PascalCasedObj1(k: string, n: string, f: Field)
    requires PascalCase(k) == n
    ensures PascalCasedDeep(Obj1(k, f)) == Obj1(n, Field(f.optional, PascalCasedDeep(f.value)))
  {
    PascalCasedObjectIs(map[k := f], map[n := Field(f.optional, PascalCasedDeep(f.value))]);
  }

  const FooBarString: Shape := Obj1("fooBar", Req(String))
  const PascalFooBarString: Shape := Obj1("FooBar", Req(String))

  lemma PascalFooBar()
    ensures PascalCasedDeep(FooBarString) == PascalFooBarString
  {
    FooBar();
    PascalCasedObj1("fooBar", "FooBar", Req(String));
  }

  /** `{helloWorld: {fooBar: string}}` becomes `{HelloWorld: {FooBar: string}}`. */
  lemma PascalNested()
    ensures PascalCasedDeep(Obj1("helloWorld", Req(FooBarString)))
         == Obj1("HelloWorld", Req(PascalFooBarString))
  {
    HelloWorld();
    PascalFooBar();
    PascalCasedObj1("helloWorld", "HelloWorld", Req(FooBarString));
  }

  /** `() => {a: string}` is kept as it is, though the object type it
      returns would be converted on its own. */
  lemma PascalKeepsFunction()
    ensures PascalCasedDeep(Function(Obj1("a", Req(String)))) == Function(Obj1("a", Req(String)))
    ensures "a" !in PascalCasedDeep(Obj1("a", Req(String))).fields
  {
    FunctionKept(Obj1("a", Req(String)));
    KeyA();
    PascalCasedObj1("a", "A", Req(String));
  }

  lemma FunctionKept(r: Shape)
    ensures PascalCasedDeep(Function(r)) == Function(r)
  {
  }

  lemma KeyA()
    ensures PascalCase("a") == "A"
  {
    PascalOfPlain("a");
    assert Capitalize("a") == "A";
  }

  /** `Set<{fooBar: string}>` becomes `Set<{FooBar: string}>`. */
  lemma PascalSet()
    ensures PascalCasedDeep(SetOf(FooBarString)) == SetOf(PascalFooBarString)
  {
    PascalFooBar();
  }

  const User: Shape :=
    Object(map["userId" := Req(Number), "userName" := Req(String),
               "date" := Req(Date), "regExp" := Req(RegExp)], map[])

  const PascalUser: Shape :=
    Object(map["UserId" := Req(Number), "UserName" := Req(String),
               "Date" := Req(Date), "RegExp" := Req(RegExp)], map[])

  const UserWithFriends: Shape :=
    Object(map["userInfo" := Req(User), "userFriends" := Req(Array(User))], map[])

  const PascalUserWithFriends: Shape :=
    Object(map["UserInfo" := Req(PascalUser), "UserFriends" := Req(Array(PascalUser))], map[])

  /** A property converted in place. */
  function Converted(f: Field): Field { Field(f.optional, PascalCasedDeep(f.value)) }

  /** An object type with two properties whose names stay apart. */
  lemma PascalCasedObj2(k1: string, n1: string, f1: Field, k2: string, n2: string, f2: Field)
    requires k1 != k2 && n1 != n2
    requires PascalCase(k1) == n1 && PascalCase(k2) == n2
    ensures PascalCasedDeep(Object(map[k1 := f1, k2 := f2], map[]))
         == Object(map[n1 := Converted(f1), n2 := Converted(f2)], map[])
  {
    var fs := map[k1 := f1, k2 := f2];
    var fs2 := map[n1 := Converted(f1), n2 := Converted(f2)];
    TwoNamesConverted(fs, fs2, PascalCase, k1, n1, f1, k2, n2, f2);
    PascalCasedObjectIs(fs, fs2);
  }

  lemma TwoNamesConverted(fs: map<string, Field>, fs2: map<string, Field>, f: string -> string,
                          k1: string, n1: string, g1: Field, k2: string, n2: string, g2: Field)
    requires k1 != k2 && n1 != n2 && f(k1) == n1 && f(k2) == n2
    requires fs == map[k1 := g1, k2 := g2]
    requires fs2 == map[n1 := Converted(g1), n2 := Converted(g2)]
    ensures InjectiveOn(fs, f)
    ensures forall k | k in fs :: f(k) in fs2 && fs2[f(k)] == Converted(fs[k])
    ensures fs2.Keys <= set k | k in fs :: f(k)
  {
    assert k1 in fs && k2 in fs;
  }

  /** Four distinct keys that `f` gives four distinct names. */
  predicate FourNames(f: string -> string, k1: string, n1: string, k2: string, n2: string,
                      k3: string, n3: string, k4: string, n4: string)
  {
    && k1 != k2 && k1 != k3 && k1 != k4 && k2 != k3 && k2 != k4 && k3 != k4
    && n1 != n2 && n1 != n3 && n1 != n4 && n2 != n3 && n2 != n4 && n3 != n4
    && f(k1) == n1 && f(k2) == n2 && f(k3) == n3 && f(k4) == n4
  }

  lemma FourNamesInjective(fs: map<string, Field>, f: string -> string, k1: string, n1: string, k2: string, n2: string,
                           k3: string, n3: string, k4: string, n4: string)
    requires FourNames(f, k1, n1, k2, n2, k3, n3, k4, n4)
    requires fs.Keys == {k1, k2, k3, k4}
    ensures InjectiveOn(fs, f)
  {
    forall j, k | j in fs && k in fs && j != k ensures f(j) != f(k) {
      var nj := if j == k1 then n1 else if j == k2 then n2 else if j == k3 then n3 else n4;
      var nk := if k == k1 then n1 else if k == k2 then n2 else if k == k3 then n3 else n4;
      assert f(j) == nj && f(k) == nk;
    }
  }

  lemma FourNamesConverted(fs: map<string, Field>, fs2: map<string, Field>, f: string -> string,
                           k1: string, n1: string, g1: Field, k2: string, n2: string, g2: Field,
                           k3: string, n3: string, g3: Field, k4: string, n4: string, g4: Field)
    requires FourNames(f, k1, n1, k2, n2, k3, n3, k4, n4)
    requires fs == map[k1 := g1, k2 := g2, k3 := g3, k4 := g4]
    requires fs2 == map[n1 := Converted(g1), n2 := Converted(g2), n3 := Converted(g3), n4 := Converted(g4)]
    ensures forall k | k in fs :: f(k) in fs2 && fs2[f(k)] == Converted(fs[k])
    ensures fs2.Keys <= set k | k in fs :: f(k)
  {
    forall k | k in fs
      ensures f(k) in fs2 && fs2[f(k)] == Converted(fs[k])
    {
      if k == k1 {
        assert fs[k] == g1 && fs2[n1] == Converted(g1);
      } else if k == k2 {
        assert fs[k] == g2 && fs2[n2] == Converted(g2);
      } else if k == k3 {
        assert fs[k] == g3 && fs2[n3] == Converted(g3);
      } else {
        assert k == k4;
        assert fs[k] == g4 && fs2[n4] == Converted(g4);
      }
    }
    assert k1 in fs && k2 in fs && k3 in fs && k4 in fs;
  }

  /** An object type with four properties whose names stay apart. */
  lemma PascalCasedObj4(k1: string, n1: string, f1: Field, k2: string, n2: string, f2: Field,
                        k3: string, n3: string, f3: Field, k4: string, n4: string, f4: Field)
    requires FourNames(PascalCase, k1, n1, k2, n2, k3, n3, k4, n4)
    ensures PascalCasedDeep(Object(map[k1 := f1, k2 := f2, k3 := f3, k4 := f4], map[]))
         == Object(map[n1 := Converted(f1), n2 := Converted(f2), n3 := Converted(f3), n4 := Converted(f4)], map[])
  {
    var fs := map[k1 := f1, k2 := f2, k3 := f3, k4 := f4];
    var fs2 := map[n1 := Converted(f1), n2 := Converted(f2), n3 := Converted(f3), n4 := Converted(f4)];
    FourNamesInjective(fs, PascalCase, k1, n1, k2, n2, k3, n3, k4, n4);
    FourNamesConverted(fs, fs2, PascalCase, k1, n1, f1, k2, n2, f2, k3, n3, f3, k4, n4, f4);
    PascalCasedObjectIs(fs, fs2);
  }

  lemma UserNames()
    ensures FourNames(PascalCase, "userId", "UserId", "userName", "UserName",
                      "date", "Date", "regExp", "RegExp")
  {
    UserId();
    UserName();
    DateKey();
    RegExpKey();
  }

  /** `Date` and `RegExp` property types are kept; only the keys change. */
  lemma PascalOfUser()
    ensures PascalCasedDeep(User) == PascalUser
  {
    UserNames();
    PascalCasedObj4("userId", "UserId", Req(Number), "userName", "UserName", Req(String),
                    "date", "Date", Req(Date), "regExp", "RegExp", Req(RegExp));
  }

  /** The nested example: the user object and every element of the friends
      array are converted. */
  lemma PascalOfUserWithFriends()
    ensures PascalCasedDeep(UserWithFriends) == PascalUserWithFriends
  {
    FriendNames();
    PascalFriends();
    PascalCasedObj2("userInfo", "UserInfo", Req(User), "userFriends", "UserFriends", Req(Array(User)));
  }

  lemma FriendNames()
    ensures PascalCase("userInfo") == "UserInfo" && PascalCase("userFriends") == "UserFriends"
  {
    UserInfo();
    UserFriends();
  }

  lemma PascalFriends()
    ensures Converted(Req(User)) == Req(PascalUser)
    ensures Converted(Req(Array(User))) == Req(Array(PascalUser))
  {
    PascalOfUser();
    ConvertedElements(User, PascalUser);
  }

  /** A converted type is converted again as an array element. */
  lemma ConvertedElements(s: Shape, t: Shape)
    requires PascalCasedDeep(s) == t
    ensures Converted(Req(s)) == Req(t)
    ensures Converted(Req(Array(s))) == Req(Array(t))
  {
  }

  // ---------------------------------------------------------------- CamelCasedProperties

  lemma CapitalizedTail2(a: string, b: string)
    ensures Concat(CapitalizeEach([a, b])) == Capitalize(a) + Capitalize(b)
  {
    assert [a, b] == [a] + [b];
    ConcatCapitalizeCons(a, [b]);
    assert [b] == [b] + [];
    ConcatCapitalizeCons(b, []);
    assert Concat(CapitalizeEach([])) == "";
  }

  /** Three plain words between delimiters. */
  lemma CamelCaseOfThree(a: string, c: char, b: string, d: char, e: string)
    requires Plain(a) && IsLower(a[0]) && Plain(b) && Plain(e)
    requires c in Delimiters && d in Delimiters
    ensures CamelCase(a + [c] + (b + [d] + e)) == a + Capitalize(b) + Capitalize(e)
  {
    var t := b + [d] + e;
    var s := a + [c] + t;
    PlainIsOneWord(e);
    WordsPrepend(b, d, e, [e]);
    WordsPrepend(a, c, t, [b, e]);
    assert [a] + [b, e] == [a, b, e];
    assert s[0] == a[0];
    NotAllUpper(s, 0);
    CamelCaseOfWordList(s, [a, b, e]);
    assert [a, b, e][1..] == [b, e];
    CapitalizedTail2(b, e);
    PlainIsOneWord(a);
  }

  /** An upper-case key without lower-case letters that lower-cases to one
      plain word becomes that word. */
  lemma CamelCaseOfUpperWord(s: string, a: string)
    requires NoLowerCase(s)
    requires Lowercase(s) == a && Plain(a)
    ensures CamelCase(s) == a
  {
    AllUpper(s, a);
    PlainIsOneWord(a);
    CamelCaseOfWordList(s, [a]);
    assert [a][1..] == [];
    assert CapitalizeEach([]) == [];
  }

  /** Screaming snake or kebab case: two upper-case words around a delimiter. */
  lemma CamelCaseOfScreaming(s: string, a: string, c: char, b: string)
    requires NoLowerCase(s)
    requires Lowercase(s) == a + [c] + b && Plain(a) && Plain(b) && c in Delimiters
    ensures CamelCase(s) == a + Capitalize(b)
  {
    AllUpper(s, a + [c] + b);
    PlainIsOneWord(b);
    WordsPrepend(a, c, b, [b]);
    CamelCaseOfTwo(s, a, b);
    PlainIsOneWord(a);
  }

  lemma DryRunKey(s: string, n: string)
    requires s == "dry-run" && n == "dryRun"
    ensures CamelCase(s) == n
  {
    assert s == "dry" + ['-'] + "run";
    CamelCaseOfDelimited("dry", '-', "run");
  }

  lemma ThreeWordKey(s: string, n: string, a: string, c: char, b: string, d: char, e: string)
    requires Plain(a) && IsLower(a[0]) && Plain(b) && Plain(e)
    requires c in Delimiters && d in Delimiters
    requires s == a + [c] + (b + [d] + e) && n == a + Capitalize(b) + Capitalize(e)
    ensures CamelCase(s) == n
  {
    CamelCaseOfThree(a, c, b, d, e);
  }

  lemma FullFamilyNameKey(s: string, n: string)
    requires s == "full_family_name" && n == "fullFamilyName"
    ensures CamelCase(s) == n
  {
    ThreeWordKey(s, n, "full", '_', "family", '_', "name");
  }

  lemma FooKey(s: string)
    requires s == "foo"
    ensures CamelCase(s) == s
  {
    CamelCaseOfLowerWord(s);
  }

  lemma BarKey(s: string, n: string)
    requires s == "BAR" && n == "bar"
    ensures CamelCase(s) == n
  {
    assert Lowercase(s) == n;
    CamelCaseOfUpperWord(s, n);
  }

  lemma QuzQuxKey(s: string, n: string)
    requires s == "QUZ_QUX" && n == "quzQux"
    ensures CamelCase(s) == n
  {
    assert Lowercase(s) == "quz" + ['_'] + "qux";
    CamelCaseOfScreaming(s, "quz", '_', "qux");
  }

  lemma OtherFieldKey(s: string, n: string)
    requires s == "OTHER-FIELD" && n == "otherField"
    ensures CamelCase(s) == n
  {
    OtherFieldLowered(s);
    OtherFieldWords();
    CamelCaseOfScreaming(s, "other", '-', "field");
    OtherFieldJoined(n);
  }

  lemma OtherFieldJoined(n: string)
    requires n == "otherField"
    ensures "other" + Capitalize("field") == n
  {
    CapitalizeLiteral("field", 'f', "ield", "Field");
  }

  lemma OtherFieldLowered(s: string)
    requires s == "OTHER-FIELD"
    ensures Lowercase(s) == "other" + ['-'] + "field"
    ensures NoLowerCase(s)
  {
  }

  lemma OtherFieldWords()
    ensures Plain("other") && Plain("field") && '-' in Delimiters
  {
  }

  const RawOptionKeys: seq<string> := ["dry-run", "full_family_name", "foo", "BAR", "QUZ_QUX", "OTHER-FIELD"]
  const OptionKeys: seq<string> := ["dryRun", "fullFamilyName", "foo", "bar", "quzQux", "otherField"]

  const RawOptions: Shape :=
    Object(map["dry-run" := Req(Boolean), "full_family_name" := Req(String), "foo" := Req(Number),
               "BAR" := Req(String), "QUZ_QUX" := Req(Number), "OTHER-FIELD" := Req(Boolean)], map[])

  const CamelOptions: Shape :=
    Object(map["dryRun" := Req(Boolean), "fullFamilyName" := Req(String), "foo" := Req(Number),
               "bar" := Req(String), "quzQux" := Req(Number), "otherField" := Req(Boolean)], map[])

  /** `f` sends each key of `RawOptions` to the matching key of `CamelOptions`. */
  predicate OptionNamesBy(f: string -> string)
  {
    && f("dry-run") == "dryRun" && f("full_family_name") == "fullFamilyName" && f("foo") == "foo"
    && f("BAR") == "bar" && f("QUZ_QUX") == "quzQux" && f("OTHER-FIELD") == "otherField"
  }

  lemma OptionNames()
    ensures OptionNamesBy(CamelCase)
  {
    DryRunKey("dry-run", "dryRun");
    FullFamilyNameKey("full_family_name", "fullFamilyName");
    FooKey("foo");
    BarKey("BAR", "bar");
    QuzQuxKey("QUZ_QUX", "quzQux");
    OtherFieldKey("OTHER-FIELD", "otherField");
  }

  lemma OptionsInjective(f: string -> string)
    requires OptionNamesBy(f)
    ensures InjectiveOn(RawOptions.fields, f)
  {
    var ks, ns := RawOptionKeys, OptionKeys;
    assert forall k | k in RawOptions.fields :: k in ks;
    assert forall i | 0 <= i < |ks| :: f(ks[i]) == ns[i];
    InjectiveByNames(RawOptions.fields, f, ks, ns);
  }

  lemma OptionsRenamed(f: string -> string)
    requires OptionNamesBy(f)
    ensures forall k | k in RawOptions.fields ::
              f(k) in CamelOptions.fields && CamelOptions.fields[f(k)] == RawOptions.fields[k]
    ensures CamelOptions.fields.Keys <= set k | k in RawOptions.fields :: f(k)
  {
    var fs := RawOptions.fields;
    var fs2 := CamelOptions.fields;
    forall k | k in fs ensures f(k) in fs2 && fs2[f(k)] == fs[k] {
      assert k in RawOptionKeys;
    }
    assert "dry-run" in fs && "full_family_name" in fs && "foo" in fs;
    assert "BAR" in fs && "QUZ_QUX" in fs && "OTHER-FIELD" in fs;
  }

  /** The `RawOptions` example: every key camel-cased, every property type
      kept. */
  lemma CamelCasedRawOptions()
    ensures CamelCasedProperties(RawOptions) == CamelOptions
  {
    OptionNames();
    OptionsInjective(CamelCase);
    OptionsRenamed(CamelCase);
    RenameKeysIs(RawOptions.fields, CamelCase, CamelOptions.fields);
    CamelCasedOfObject(RawOptions);
  }
}
