/**
 The literal cases that `CamelCase` and `Split` are expected to produce, derived
 from the general word laws.
 */
module CamelCaseFixtures {
  import opened CaseConversion
  import opened CaseLaws

  /** Words made of lower-case letters and digits only. */
  predicate Plain(w: string)
  {
    w != "" && forall i :: 0 <= i < |w| ==> IsLower(w[i]) || '0' <= w[i] <= '9'
  }

  lemma PlainIsOneWord(w: string)
    requires Plain(w)
    ensures Words(w) == [w]
    ensures Uncapitalize(w) == w
  {
    WordsOfOneWord(w);
  }

  /** An upper-case letter followed by a plain word is one word that
      `Capitalize` leaves alone. */
  lemma CapitalWord(c: char, b: string)
    requires IsUpper(c) && Plain(b)
    ensures Words([c] + b) == [[c] + b]
    ensures NoneIn([c] + b, Delimiters)
    ensures Capitalize([c] + b) == [c] + b
  {
    var w := [c] + b;
    assert NoHump(w) by {
      forall i | 0 <= i < |w| - 1 ensures !IsHump(w[i], w[i + 1]) {
        assert w[i + 1] == b[i];
      }
    }
    assert NoneIn(w, Delimiters) by {
      forall i | 0 <= i < |w| ensures w[i] !in Delimiters {
        if i > 0 { assert w[i] == b[i - 1]; }
      }
    }
    WordsOfOneWord(w);
  }

  lemma NotAllUpper(s: string, i: nat)
    requires i < |s| && IsLower(s[i])
    ensures Normalize(s) == s
  {
    assert Uppercase(s)[i] != s[i];
  }

  lemma CamelCaseOfTwo(s: string, a: string, b: string)
    requires Words(Normalize(s)) == [a, b]
    ensures CamelCase(s) == Uncapitalize(a) + Capitalize(b)
  {
    assert [a, b][1..] == [b];
    assert [Capitalize(b)][1..] == [];
    assert CapitalizeEach([b]) == [Capitalize(b)] + CapitalizeEach([]);
    assert Concat([Capitalize(b)]) == Capitalize(b) + Concat([]);
  }

  /** Two plain words around any delimiter: the second is capitalised. */
  lemma CamelCaseOfDelimited(a: string, c: char, b: string)
    requires Plain(a) && Plain(b) && IsLower(a[0]) && c in Delimiters
    ensures CamelCase(a + [c] + b) == a + Capitalize(b)
  {
    var s := a + [c] + b;
    assert s[0] == a[0];
    NotAllUpper(s, 0);
    PlainIsOneWord(a);
    PlainIsOneWord(b);
    WordsAcrossDelimiter(a, c, b);
    CamelCaseOfTwo(s, a, b);
  }

  lemma CamelFromPascal()
    ensures CamelCase("FooBar") == "fooBar"
  {
    PascalKey("FooBar", "fooBar", 'F', "oo", 'B', "ar");
  }

  /** Two capitalised words: the first is uncapitalised, the second kept. */
  lemma PascalKey(s: string, r: string, c1: char, b1: string, c2: char, b2: string)
    requires IsUpper(c1) && Plain(b1) && IsLower(b1[0]) && IsLower(b1[|b1| - 1]) && IsUpper(c2) && Plain(b2)
    requires s == [c1] + b1 + [c2] + b2 && r == [ToLower(c1)] + b1 + [c2] + b2
    ensures CamelCase(s) == r
  {
    var w1, w2 := [c1] + b1, [c2] + b2;
    CapitalWord(c1, b1);
    CapitalWord(c2, b2);
    TwoCapitalWords(s, c1, b1, c2, b2);
    NotAllUpper(s, 1);
    WordsAcrossHump(w1, w2);
    CamelCaseOfTwo(s, w1, w2);
  }

  lemma TwoCapitalWords(s: string, c1: char, b1: string, c2: char, b2: string)
    requires |b1| > 0 && s == [c1] + b1 + [c2] + b2
    ensures s == ([c1] + b1) + ([c2] + b2) && s[1] == b1[0]
    ensures ([c1] + b1)[|[c1] + b1| - 1] == b1[|b1| - 1] && ([c2] + b2)[0] == c2
    ensures Uncapitalize([c1] + b1) == [ToLower(c1)] + b1
  {
    assert Uncapitalize([c1] + b1)[1..] == b1;
  }

  /** `CamelCaseOfDelimited` with the key and its result given whole. */
  lemma DelimitedKey(s: string, r: string, a: string, c: char, b: string, cb: string)
    requires Plain(a) && Plain(b) && IsLower(a[0]) && c in Delimiters
    requires s == a + [c] + b && Capitalize(b) == cb && r == a + cb
    ensures CamelCase(s) == r
  {
    CamelCaseOfDelimited(a, c, b);
  }

  lemma PlainFooBar()
    ensures Plain("foo") && Plain("bar")
  {
  }

  lemma CapitalizedBar()
    ensures Capitalize("bar") == "Bar"
  {
    assert "bar"[1..] == "ar";
  }

  /** `foo-bar`, `foo bar` and `foo_bar`: every delimiter splits the same way. */
  lemma CamelFromDelimited()
    ensures forall c | c in Delimiters :: CamelCase("foo" + [c] + "bar") == "fooBar"
  {
    PlainFooBar();
    CapitalizedBar();
    forall c | c in Delimiters ensures CamelCase("foo" + [c] + "bar") == "fooBar" {
      DelimitedKey("foo" + [c] + "bar", "fooBar", "foo", c, "bar", "Bar");
    }
  }

  /** Empty words between repeated or leading delimiters vanish. */
  lemma WordsAfterDelimiter(c: char, s: string)
    requires c in Delimiters
    ensures Words([c] + s) == Words(s)
  {
    assert [c] + s == "" + [c] + s;
    WordsAcrossDelimiter("", c, s);
    assert Words("") == [];
  }

  lemma WordsOfRepeatedSeparators()
    ensures Words("___bar") == ["bar"]
  {
    PlainFooBar();
    WordsAfterDelimiters("___bar", "__bar", "_bar", '_', "bar");
  }

  /** Three leading delimiters before one plain word. */
  lemma WordsAfterDelimiters(s: string, t1: string, t2: string, c: char, b: string)
    requires c in Delimiters && Plain(b)
    requires t2 == [c] + b && t1 == [c] + t2 && s == [c] + t1
    ensures Words(s) == [b]
  {
    PlainIsOneWord(b);
    WordsAfterDelimiter(c, b);
    WordsAfterDelimiter(c, t2);
    WordsAfterDelimiter(c, t1);
  }

  /** A plain word, a delimiter, and a tail that holds exactly one plain word. */
  lemma CamelCaseOfWordAndTail(a: string, c: char, tail: string, b: string)
    requires Plain(a) && IsLower(a[0]) && c in Delimiters
    requires Plain(b) && Words(tail) == [b]
    ensures CamelCase(a + [c] + tail) == a + Capitalize(b)
  {
    var s := a + [c] + tail;
    assert s[0] == a[0];
    NotAllUpper(s, 0);
    PlainIsOneWord(a);
    WordsAcrossDelimiter(a, c, tail);
    CamelCaseOfTwo(s, a, b);
  }

  lemma CamelFromRepeatedSeparators()
    ensures CamelCase("foo____bar") == "fooBar"
  {
    RepeatedSeparators("foo____bar", "___bar");
  }

  lemma RepeatedSeparators(s: string, tail: string)
    requires tail == "___bar" && s == "foo" + ['_'] + tail
    ensures CamelCase(s) == "fooBar"
  {
    WordsOfRepeatedSeparators();
    PlainFooBar();
    CapitalizedBar();
    CamelCaseOfWordAndTail("foo", '_', tail, "bar");
  }

  lemma CamelCaseOfWordList(s: string, ws: seq<string>)
    requires |ws| > 0 && Words(Normalize(s)) == ws
    ensures CamelCase(s) == Uncapitalize(ws[0]) + Concat(CapitalizeEach(ws[1..]))
  {
  }

  lemma ConcatCapitalizeCons(w: string, ws: seq<string>)
    ensures Concat(CapitalizeEach([w] + ws)) == Capitalize(w) + Concat(CapitalizeEach(ws))
  {
    assert ([w] + ws)[1..] == ws;
    var cs := CapitalizeEach([w] + ws);
    assert cs[1..] == CapitalizeEach(ws);
  }

  lemma CamelFromComplexKebab()
    ensures CamelCase("foo-bar-abc-123") == "fooBarAbc123"
  {
    ComplexKebab("foo-bar-abc-123", "bar-abc-123", "abc-123");
  }

  lemma ComplexKebab(s: string, t1: string, t2: string)
    requires t2 == "abc" + ['-'] + "123"
    requires t1 == "bar" + ['-'] + t2
    requires s == "foo" + ['-'] + t1
    ensures CamelCase(s) == "fooBarAbc123"
  {
    WordsOfComplexKebab(s, t1, t2);
    assert s[0] == 'f';
    NotAllUpper(s, 0);
    var ws := ["foo", "bar", "abc", "123"];
    CamelCaseOfWordList(s, ws);
    assert ws[1..] == ["bar", "abc", "123"];
    CapitalizedTail3("bar", "abc", "123");
  }

  lemma WordsOfComplexKebab(s: string, t1: string, t2: string)
    requires t2 == "abc" + ['-'] + "123"
    requires t1 == "bar" + ['-'] + t2
    requires s == "foo" + ['-'] + t1
    ensures Words(s) == ["foo", "bar", "abc", "123"]
  {
    PlainIsOneWord("123");
    WordsPrepend("abc", '-', "123", ["123"]);
    WordsPrepend("bar", '-', t2, ["abc", "123"]);
    WordsPrepend("foo", '-', t1, ["bar", "abc", "123"]);
  }

  /** A plain word followed by a delimiter comes first among the words. */
  lemma WordsPrepend(a: string, c: char, tail: string, ws: seq<string>)
    requires Plain(a) && c in Delimiters && Words(tail) == ws
    ensures Words(a + [c] + tail) == [a] + ws
  {
    PlainIsOneWord(a);
    WordsAcrossDelimiter(a, c, tail);
  }

  lemma CapitalizedTail3(a: string, b: string, c: string)
    ensures Concat(CapitalizeEach([a, b, c])) == Capitalize(a) + (Capitalize(b) + (Capitalize(c) + ""))
  {
    assert [a, b, c] == [a] + [b, c];
    ConcatCapitalizeCons(a, [b, c]);
    assert [b, c] == [b] + [c];
    ConcatCapitalizeCons(b, [c]);
    assert [c] == [c] + [];
    ConcatCapitalizeCons(c, []);
    assert Concat(CapitalizeEach([])) == "";
  }

  lemma CapitalizedTail5(a: string, b: string, c: string, d: string, e: string)
    ensures Concat(CapitalizeEach([a, b, c, d, e]))
         == Capitalize(a) + (Capitalize(b) + Concat(CapitalizeEach([c, d, e])))
  {
    assert [a, b, c, d, e] == [a] + [b, c, d, e];
    ConcatCapitalizeCons(a, [b, c, d, e]);
    assert [b, c, d, e] == [b] + [c, d, e];
    ConcatCapitalizeCons(b, [c, d, e]);
  }

  lemma CamelFromMixed()
    ensures CamelCase("foo-bar_abc xyzBarFoo") == "fooBarAbcXyzBarFoo"
  {
    Mixed("foo-bar_abc xyzBarFoo", "bar_abc xyzBarFoo", "abc xyzBarFoo", "xyzBarFoo", "BarFoo");
  }

  lemma Mixed(s: string, t1: string, t2: string, t3: string, t4: string)
    requires t4 == "Bar" + "Foo"
    requires t3 == "xyz" + t4
    requires t2 == "abc" + [' '] + t3
    requires t1 == "bar" + ['_'] + t2
    requires s == "foo" + ['-'] + t1
    ensures CamelCase(s) == "fooBarAbcXyzBarFoo"
  {
    WordsOfMixed(s, t1, t2, t3, t4);
    assert s[0] == 'f';
    NotAllUpper(s, 0);
    var ws := ["foo", "bar", "abc", "xyz", "Bar", "Foo"];
    CamelCaseOfWordList(s, ws);
    assert ws[1..] == ["bar", "abc", "xyz", "Bar", "Foo"];
    MixedJoined();
  }

  lemma MixedJoined()
    ensures Uncapitalize("foo") + Concat(CapitalizeEach(["bar", "abc", "xyz", "Bar", "Foo"]))
         == "fooBarAbcXyzBarFoo"
  {
    CapitalizedTail5("bar", "abc", "xyz", "Bar", "Foo");
    CapitalizedTail3("xyz", "Bar", "Foo");
    MixedWordsCapitalized();
  }

  lemma MixedWordsCapitalized()
    ensures Uncapitalize("foo") == "foo"
    ensures Capitalize("bar") == "Bar" && Capitalize("abc") == "Abc" && Capitalize("xyz") == "Xyz"
    ensures Capitalize("Bar") == "Bar" && Capitalize("Foo") == "Foo"
  {
    CapitalizeLiteral("bar", 'b', "ar", "Bar");
    CapitalizeLiteral("abc", 'a', "bc", "Abc");
    CapitalizeLiteral("xyz", 'x', "yz", "Xyz");
    CapitalizeLiteral("Bar", 'B', "ar", "Bar");
    CapitalizeLiteral("Foo", 'F', "oo", "Foo");
    assert "foo"[1..] == "oo";
  }

  lemma CapitalizeLiteral(w: string, c: char, rest: string, r: string)
    requires w == [c] + rest && r == [ToUpper(c)] + rest
    ensures Capitalize(w) == r
  {
    assert w[1..] == rest;
  }

  lemma WordsOfHumps(t3: string, t4: string)
    requires t4 == "Bar" + "Foo"
    requires t3 == "xyz" + t4
    ensures Words(t3) == ["xyz", "Bar", "Foo"]
  {
    PlainXyz();
    WordsOfHumpChain(t3, t4, "xyz", "Bar", 'B', "ar", "Foo", 'F', "oo");
  }

  lemma PlainXyz()
    ensures Plain("xyz") && Plain("ar") && Plain("oo")
  {
  }

  /** A plain word followed by two capitalised words: three words. */
  lemma WordsOfHumpChain(t3: string, t4: string, a: string, w1: string, c1: char, b1: string,
                         w2: string, c2: char, b2: string)
    requires Plain(a) && IsLower(a[|a| - 1])
    requires IsUpper(c1) && Plain(b1) && IsLower(b1[|b1| - 1]) && IsUpper(c2) && Plain(b2)
    requires w1 == [c1] + b1 && w2 == [c2] + b2 && t4 == w1 + w2 && t3 == a + t4
    ensures Words(t3) == [a, w1, w2]
  {
    PlainIsOneWord(a);
    CapitalWord(c1, b1);
    CapitalWord(c2, b2);
    WordsAcrossHump(w1, w2);
    assert NoneIn(t4, Delimiters);
    WordsAcrossHump(a, t4);
  }

  lemma WordsOfMixed(s: string, t1: string, t2: string, t3: string, t4: string)
    requires t4 == "Bar" + "Foo"
    requires t3 == "xyz" + t4
    requires t2 == "abc" + [' '] + t3
    requires t1 == "bar" + ['_'] + t2
    requires s == "foo" + ['-'] + t1
    ensures Words(s) == ["foo", "bar", "abc", "xyz", "Bar", "Foo"]
  {
    WordsOfHumps(t3, t4);
    WordsPrepend("abc", ' ', t3, ["xyz", "Bar", "Foo"]);
    WordsPrepend("bar", '_', t2, ["abc", "xyz", "Bar", "Foo"]);
    WordsPrepend("foo", '-', t1, ["bar", "abc", "xyz", "Bar", "Foo"]);
  }

  lemma CamelFromMonoAndLowercase()
    ensures CamelCase("foobar") == "foobar"
    ensures CamelCase("foo") == "foo"
  {
    CamelCaseOfLowerWord("foobar");
    CamelCaseOfLowerWord("foo");
  }

  lemma CamelFromVendorPrefixed()
    ensures CamelCase("-webkit-animation") == "webkitAnimation"
  {
    VendorPrefixed("-webkit-animation", "webkit-animation");
  }

  lemma VendorPrefixed(s: string, t: string)
    requires t == "webkit" + ['-'] + "animation"
    requires s == ['-'] + t
    ensures CamelCase(s) == "webkitAnimation"
  {
    WordsOfVendorPrefixed(s, t);
    assert s[1] == 'w';
    NotAllUpper(s, 1);
    CamelCaseOfTwo(s, "webkit", "animation");
  }

  lemma WordsOfVendorPrefixed(s: string, t: string)
    requires t == "webkit" + ['-'] + "animation"
    requires s == ['-'] + t
    ensures Words(s) == ["webkit", "animation"]
  {
    TwoPlainWords(t, "webkit", '-', "animation");
    WordsAfterDelimiter('-', t);
  }

  lemma TwoPlainWords(t: string, a: string, c: char, b: string)
    requires Plain(a) && Plain(b) && c in Delimiters && t == a + [c] + b
    ensures Words(t) == [a, b]
  {
    PlainIsOneWord(b);
    WordsPrepend(a, c, b, [b]);
  }

  lemma CamelFromDoublePrefixed()
    ensures CamelCase("--very-prefixed") == "veryPrefixed"
  {
    DoublePrefixed("--very-prefixed", "-very-prefixed", "very-prefixed");
  }

  lemma DoublePrefixed(s: string, t1: string, t2: string)
    requires t2 == "very" + ['-'] + "prefixed"
    requires t1 == ['-'] + t2
    requires s == ['-'] + t1
    ensures CamelCase(s) == "veryPrefixed"
  {
    WordsOfDoublePrefixed(s, t1, t2);
    assert s[2] == 'v';
    NotAllUpper(s, 2);
    CamelCaseOfTwo(s, "very", "prefixed");
  }

  lemma WordsOfDoublePrefixed(s: string, t1: string, t2: string)
    requires t2 == "very" + ['-'] + "prefixed"
    requires t1 == ['-'] + t2
    requires s == ['-'] + t1
    ensures Words(s) == ["very", "prefixed"]
  {
    PlainVeryPrefixed();
    WordsOfPrefixed(s, t1, t2, "very", '-', "prefixed");
  }

  lemma PlainVeryPrefixed()
    ensures Plain("very") && Plain("prefixed")
  {
  }

  /** Two leading delimiters before two plain words. */
  lemma WordsOfPrefixed(s: string, t1: string, t2: string, a: string, c: char, b: string)
    requires Plain(a) && Plain(b) && c in Delimiters
    requires t2 == a + [c] + b && t1 == [c] + t2 && s == [c] + t1
    ensures Words(s) == [a, b]
  {
    TwoPlainWords(t2, a, c, b);
    WordsAfterDelimiter(c, t2);
    WordsAfterDelimiter(c, t1);
  }

  /** No letter of `s` is lower-case. */
  predicate NoLowerCase(s: string)
  {
    forall i :: 0 <= i < |s| ==> !IsLower(s[i])
  }

  /** An input without lower-case letters is lower-cased before splitting. */
  lemma AllUpper(s: string, l: string)
    requires NoLowerCase(s)
    requires l == Lowercase(s)
    ensures Normalize(s) == l
  {
    assert Uppercase(s) == s;
  }

  lemma CamelFromUppercase()
    ensures CamelCase("FOO") == "foo"
  {
    Uppercased("FOO", "foo");
  }

  lemma Uppercased(s: string, l: string)
    requires s == "FOO" && l == "foo"
    ensures CamelCase(s) == "foo"
  {
    assert Lowercase(s) == l;
    AllUpper(s, l);
    PlainIsOneWord(l);
    assert CapitalizeEach([]) == [];
  }

  /** `FOO_BAR` and `FOO-BAR`: lower-cased first, then split at the delimiter. */
  lemma CamelFromScreaming()
    ensures forall c | c in Delimiters :: CamelCase("FOO" + [c] + "BAR") == "fooBar"
  {
    forall c | c in Delimiters ensures CamelCase("FOO" + [c] + "BAR") == "fooBar" {
      Screaming("FOO" + [c] + "BAR", c, "foo" + [c] + "bar");
    }
  }

  lemma Screaming(s: string, c: char, l: string)
    requires c in Delimiters
    requires s == "FOO" + [c] + "BAR" && l == "foo" + [c] + "bar"
    ensures CamelCase(s) == "fooBar"
  {
    ScreamingLowered(s, c, l);
    PlainFooBar();
    TwoPlainWords(l, "foo", c, "bar");
    CamelCaseOfTwo(s, "foo", "bar");
    FooBarJoined();
  }

  lemma ScreamingLowered(s: string, c: char, l: string)
    requires c in Delimiters
    requires s == "FOO" + [c] + "BAR" && l == "foo" + [c] + "bar"
    ensures Normalize(s) == l
  {
    assert Lowercase(s) == l;
    AllUpper(s, l);
  }

  lemma FooBarJoined()
    ensures Uncapitalize("foo") + Capitalize("bar") == "fooBar"
  {
    CapitalizedBar();
    assert "foo"[1..] == "oo";
  }
}
