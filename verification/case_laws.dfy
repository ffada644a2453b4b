/**
 Laws of the case-conversion functions: `Split` and `Join` are inverse, words
 lose no characters, and `CamelCase` changes only letter case and removes
 delimiters.
 */
module CaseLaws {
  import opened CaseConversion

  // ---------------------------------------------------------------- Split / Join

  lemma JoinPrepend(c: string, parts: seq<string>, d: char)
    requires |parts| >= 1
    ensures Join([c + parts[0]] + parts[1..], d) == c + Join(parts, d)
  {
    var ps := [c + parts[0]] + parts[1..];
    if |parts| > 1 {
      assert ps[1..] == parts[1..];
    }
  }

  /** Joining the pieces of `Split(s, d)` with `d` gives back `s`. */
  lemma {:induction false} SplitThenJoin(s: string, d: char)
    ensures Join(Split(s, d), d) == s
  {
    if |s| > 0 {
      var rest := SplitWhere(s[1..], {d});
      SplitThenJoin(s[1..], d);
      if s[0] == d {
        assert ([""] + rest)[1..] == rest;
        assert Join([""] + rest, d) == "" + [d] + Join(rest, d);
        assert s == [d] + s[1..];
      } else {
        JoinPrepend([s[0]], rest, d);
        assert s == [s[0]] + s[1..];
      }
    }
  }

  lemma {:induction false} SplitAfterSeparatorFree(a: string, s: string, seps: set<char>)
    requires NoneIn(a, seps)
    ensures SplitWhere(a + s, seps)
         == [a + SplitWhere(s, seps)[0]] + SplitWhere(s, seps)[1..]
  {
    if |a| > 0 {
      assert (a + s)[0] == a[0];
      assert (a + s)[1..] == a[1..] + s;
      SplitAfterSeparatorFree(a[1..], s, seps);
      assert [a[0]] + (a[1..] + SplitWhere(s, seps)[0]) == a + SplitWhere(s, seps)[0];
    } else {
      var r := SplitWhere(s, seps);
      assert a + s == s && a + r[0] == r[0];
      assert r == [r[0]] + r[1..];
    }
  }

  /** Splitting the join of delimiter-free parts gives back the parts. */
  lemma {:induction false} JoinThenSplit(parts: seq<string>, d: char)
    requires |parts| >= 1
    requires forall i :: 0 <= i < |parts| ==> d !in parts[i]
    ensures Split(Join(parts, d), d) == parts
  {
    assert NoneIn(parts[0], {d});
    if |parts| == 1 {
      SplitAfterSeparatorFree(parts[0], "", {d});
      assert parts[0] + "" == parts[0];
      assert parts == [parts[0]];
    } else {
      var j := Join(parts[1..], d);
      JoinThenSplit(parts[1..], d);
      assert Join(parts, d) == parts[0] + ([d] + j);
      SplitAfterSeparatorFree(parts[0], [d] + j, {d});
      assert ([d] + j)[1..] == j;
      assert SplitWhere([d] + j, {d}) == [""] + parts[1..];
      assert parts[0] + "" == parts[0];
      assert parts == [parts[0]] + parts[1..];
    }
  }

  /** The fixture `Split<'--very-prefixed', '-'>`: leading delimiters yield
      empty leading segments. */
  lemma SplitVeryPrefixed()
    ensures Split("--very-prefixed", '-') == ["", "", "very", "prefixed"]
  {
    var parts := ["", "", "very", "prefixed"];
    assert Join(parts, '-') == "--very-prefixed";
    JoinThenSplit(parts, '-');
  }

  // ---------------------------------------------------------------- words

  lemma {:induction false} ConcatAppend(a: seq<string>, b: seq<string>)
    ensures Concat(a + b) == Concat(a) + Concat(b)
  {
    if |a| > 0 {
      assert (a + b)[1..] == a[1..] + b;
      ConcatAppend(a[1..], b);
    } else {
      assert a + b == b;
    }
  }

  lemma {:induction false} ConcatSplitWhere(s: string, seps: set<char>)
    ensures Concat(SplitWhere(s, seps)) == Without(s, seps)
  {
    if |s| > 0 {
      ConcatSplitWhere(s[1..], seps);
      var rest := SplitWhere(s[1..], seps);
      if s[0] in seps {
        assert ([""] + rest)[1..] == rest;
      } else {
        var r := [[s[0]] + rest[0]] + rest[1..];
        assert r[1..] == rest[1..];
        assert Concat(rest) == rest[0] + Concat(rest[1..]);
      }
    }
  }

  lemma {:induction false} SplitHumpsShape(w: string)
    ensures Concat(SplitHumps(w)) == w
    ensures |w| > 0 ==> |SplitHumps(w)[0]| > 0 && SplitHumps(w)[0][0] == w[0]
    ensures forall i :: 0 <= i < |SplitHumps(w)| ==> NoHump(SplitHumps(w)[i])
  {
    if |w| > 1 {
      SplitHumpsShape(w[1..]);
      var rest := SplitHumps(w[1..]);
      assert Concat(rest) == rest[0] + Concat(rest[1..]);
      if IsHump(w[0], w[1]) {
        var r := [[w[0]]] + rest;
        assert r[1..] == rest;
        assert w == [w[0]] + w[1..];
        forall i | 0 <= i < |r| ensures NoHump(r[i]) {
          if i > 0 { assert r[i] == rest[i - 1]; }
        }
      } else {
        var h := [w[0]] + rest[0];
        var r := [h] + rest[1..];
        assert r[1..] == rest[1..];
        assert w == [w[0]] + w[1..];
        assert NoHump(rest[0]);
        assert NoHump(h) by {
          forall k | 0 <= k < |h| - 1 ensures !IsHump(h[k], h[k + 1]) {
            if k > 0 { assert h[k] == rest[0][k - 1] && h[k + 1] == rest[0][k]; }
          }
        }
        forall i | 0 <= i < |r| ensures NoHump(r[i]) {
          if i > 0 { assert r[i] == rest[i]; }
        }
      }
    }
  }

  lemma {:induction false} ConcatSplitAllHumps(segments: seq<string>)
    ensures Concat(SplitAllHumps(segments)) == Concat(segments)
  {
    if |segments| > 0 {
      ConcatSplitAllHumps(segments[1..]);
      SplitHumpsShape(segments[0]);
      ConcatAppend(SplitHumps(segments[0]), SplitAllHumps(segments[1..]));
    }
  }

  lemma {:induction false} SplitAllHumpsNoHump(segments: seq<string>)
    ensures forall i :: 0 <= i < |SplitAllHumps(segments)| ==> NoHump(SplitAllHumps(segments)[i])
  {
    if |segments| > 0 {
      SplitAllHumpsNoHump(segments[1..]);
      SplitHumpsShape(segments[0]);
      var a := SplitHumps(segments[0]);
      var b := SplitAllHumps(segments[1..]);
      forall i | 0 <= i < |a + b| ensures NoHump((a + b)[i]) {
        if i >= |a| { assert (a + b)[i] == b[i - |a|]; }
      }
    }
  }

  lemma {:induction false} NonEmptyKeeps(ws: seq<string>)
    ensures Concat(NonEmpty(ws)) == Concat(ws)
    ensures forall i :: 0 <= i < |NonEmpty(ws)| ==> exists j :: 0 <= j < |ws| && NonEmpty(ws)[i] == ws[j]
  {
    if |ws| > 0 {
      NonEmptyKeeps(ws[1..]);
      var r := NonEmpty(ws);
      var rest := NonEmpty(ws[1..]);
      if ws[0] != "" {
        assert r[1..] == rest;
        forall i | 0 <= i < |r| ensures exists j :: 0 <= j < |ws| && r[i] == ws[j] {
          if i == 0 {
            assert r[0] == ws[0];
          } else {
            var j :| 0 <= j < |ws[1..]| && rest[i - 1] == ws[1..][j];
            assert r[i] == ws[j + 1];
          }
        }
      } else {
        forall i | 0 <= i < |r| ensures exists j :: 0 <= j < |ws| && r[i] == ws[j] {
          var j :| 0 <= j < |ws[1..]| && rest[i] == ws[1..][j];
          assert r[i] == ws[j + 1];
        }
      }
    }
  }

  lemma {:induction false} ConcatPartsAvoid(ws: seq<string>, seps: set<char>)
    requires NoneIn(Concat(ws), seps)
    ensures forall i :: 0 <= i < |ws| ==> NoneIn(ws[i], seps)
  {
    if |ws| > 0 {
      var c := Concat(ws[1..]);
      assert Concat(ws) == ws[0] + c;
      assert forall k :: 0 <= k < |c| ==> c[k] == Concat(ws)[|ws[0]| + k];
      assert forall k :: 0 <= k < |ws[0]| ==> ws[0][k] == Concat(ws)[k];
      ConcatPartsAvoid(ws[1..], seps);
      forall i | 0 <= i < |ws| ensures NoneIn(ws[i], seps) {
        if i > 0 { assert ws[i] == ws[1..][i - 1]; }
      }
    }
  }

  /** Words lose no characters: concatenated they give the input minus its
      delimiters. Each word is non-empty, delimiter-free and hump-free. */
  lemma WordsPartition(s: string)
    ensures Concat(Words(s)) == Without(s, Delimiters)
    ensures forall i :: 0 <= i < |Words(s)| ==>
      Words(s)[i] != "" && NoneIn(Words(s)[i], Delimiters) && NoHump(Words(s)[i])
  {
    var segments := SplitWhere(s, Delimiters);
    ConcatSplitWhere(s, Delimiters);
    ConcatSplitAllHumps(segments);
    NonEmptyKeeps(SplitAllHumps(segments));
    SplitAllHumpsNoHump(segments);
    ConcatPartsAvoid(Words(s), Delimiters);
  }

  // ---------------------------------------------------------------- CamelCase

  lemma LowercaseAppend(a: string, b: string)
    ensures Lowercase(a + b) == Lowercase(a) + Lowercase(b)
  {
    assert forall i :: 0 <= i < |a + b| ==> Lowercase(a + b)[i] == (Lowercase(a) + Lowercase(b))[i];
  }

  lemma LowercaseIdempotent(s: string)
    ensures Lowercase(Lowercase(s)) == Lowercase(s)
  {
  }

  lemma LowercaseOfCapitalized(w: string)
    ensures Lowercase(Capitalize(w)) == Lowercase(w)
    ensures Lowercase(Uncapitalize(w)) == Lowercase(w)
  {
    if |w| > 0 {
      ToLowerToUpper(w[0]);
      assert forall i :: 0 <= i < |w| ==> Lowercase(Capitalize(w))[i] == Lowercase(w)[i];
      assert forall i :: 0 <= i < |w| ==> Lowercase(Uncapitalize(w))[i] == Lowercase(w)[i];
    }
  }

  lemma {:induction false} LowercaseConcatCapitalizeEach(ws: seq<string>)
    ensures Lowercase(Concat(CapitalizeEach(ws))) == Lowercase(Concat(ws))
  {
    if |ws| > 0 {
      LowercaseConcatCapitalizeEach(ws[1..]);
      var cs := CapitalizeEach(ws);
      assert cs[1..] == CapitalizeEach(ws[1..]);
      LowercaseAppend(Capitalize(ws[0]), Concat(cs[1..]));
      LowercaseAppend(ws[0], Concat(ws[1..]));
      LowercaseOfCapitalized(ws[0]);
    }
  }

  lemma {:induction false} WithoutLowercase(s: string)
    ensures Without(Lowercase(s), Delimiters) == Lowercase(Without(s, Delimiters))
  {
    if |s| > 0 {
      WithoutLowercase(s[1..]);
      var l := Lowercase(s);
      assert l[1..] == Lowercase(s[1..]);
      assert l[0] in Delimiters <==> s[0] in Delimiters;
      if s[0] !in Delimiters {
        LowercaseAppend([s[0]], Without(s[1..], Delimiters));
      }
    }
  }

  lemma LowercaseNormalize(s: string)
    ensures Lowercase(Without(Normalize(s), Delimiters)) == Lowercase(Without(s, Delimiters))
  {
    if Uppercase(s) == s {
      WithoutLowercase(s);
      LowercaseIdempotent(Without(s, Delimiters));
    }
  }

  lemma CamelCaseLowercase(s: string)
    ensures Lowercase(CamelCase(s)) == Lowercase(Without(s, Delimiters))
  {
    var t := Normalize(s);
    var ws := Words(t);
    WordsPartition(t);
    LowercaseNormalize(s);
    if |ws| > 0 {
      LowercaseAppend(Uncapitalize(ws[0]), Concat(CapitalizeEach(ws[1..])));
      LowercaseOfCapitalized(ws[0]);
      LowercaseConcatCapitalizeEach(ws[1..]);
      LowercaseAppend(ws[0], Concat(ws[1..]));
    }
  }

  /** `CamelCase` only changes letter case and removes delimiters: lower-cased,
      the result is the lower-cased input without its delimiters, and the
      result never starts with an upper-case letter. */
  lemma CamelCaseKeepsLetters(s: string)
    ensures Lowercase(CamelCase(s)) == Lowercase(Without(s, Delimiters))
    ensures |CamelCase(s)| == |Without(s, Delimiters)|
    ensures NoneIn(CamelCase(s), Delimiters)
    ensures |CamelCase(s)| > 0 ==> !IsUpper(CamelCase(s)[0])
  {
    CamelCaseLowercase(s);
    SameLettersNoDelimiters(CamelCase(s), Without(s, Delimiters));
    CamelCaseStartsLower(s);
  }

  /** Two strings equal up to letter case hold delimiters at the same places. */
  lemma SameLettersNoDelimiters(r: string, u: string)
    requires Lowercase(r) == Lowercase(u) && NoneIn(u, Delimiters)
    ensures |r| == |u| && NoneIn(r, Delimiters)
  {
    var l := Lowercase(r);
    var w := Lowercase(u);
    forall i | 0 <= i < |r| ensures r[i] !in Delimiters {
      assert l[i] == w[i];
    }
  }

  lemma CamelCaseStartsLower(s: string)
    ensures |CamelCase(s)| > 0 ==> !IsUpper(CamelCase(s)[0])
  {
    var ws := Words(Normalize(s));
    if |ws| > 0 && |ws[0]| > 0 {
      assert CamelCase(s)[0] == Uncapitalize(ws[0])[0];
    }
  }

  /** A delimiter-free input without upper-case letters is returned unchanged. */
  lemma CamelCaseOfLowerWord(s: string)
    requires NoneIn(s, Delimiters)
    requires forall i :: 0 <= i < |s| ==> !IsUpper(s[i])
    ensures CamelCase(s) == s
  {
    assert Lowercase(s) == s;
    assert Normalize(s) == s;
    SplitAfterSeparatorFree(s, "", Delimiters);
    assert s + "" == s;
    assert SplitWhere(s, Delimiters) == [s];
    SplitHumpsShape(s);
    SingleHumpFree(s);
    assert [s][1..] == [];
    assert SplitAllHumps([s]) == [s] + [];
    if s != "" {
      assert NonEmpty([s]) == [s] + NonEmpty([]);
      assert Words(s) == [s];
      assert CamelCase(s) == Uncapitalize(s) + Concat(CapitalizeEach([]));
      assert Uncapitalize(s) == s;
    } else {
      assert NonEmpty([""]) == NonEmpty([]);
    }
  }

  lemma {:induction false} SingleHumpFree(w: string)
    requires NoHump(w)
    ensures SplitHumps(w) == [w]
  {
    if |w| > 1 {
      SingleHumpFree(w[1..]);
      assert w == [w[0]] + w[1..];
    }
  }

  /** `PascalCase` keeps the letters like `CamelCase` and never starts with a
      lower-case letter. */
  lemma PascalCaseKeepsLetters(s: string)
    ensures Lowercase(PascalCase(s)) == Lowercase(Without(s, Delimiters))
    ensures NoneIn(PascalCase(s), Delimiters)
    ensures |PascalCase(s)| > 0 ==> !IsLower(PascalCase(s)[0])
  {
    CamelCaseLowercase(s);
    LowercaseOfCapitalized(CamelCase(s));
    SameLettersNoDelimiters(PascalCase(s), Without(s, Delimiters));
  }

  // ---------------------------------------------------------------- capitalisation

  /** The positions of `Concat(ws)` at which the words of `ws` start. */
  function WordStarts(ws: seq<string>): set<nat>
  {
    if |ws| == 0 then {} else {0} + set i | i in WordStarts(ws[1..]) :: i + |ws[0]|
  }

  /** Past the start, a position starts a word exactly when it starts one of
      the later words. */
  lemma WordStartsCons(ws: seq<string>, i: nat)
    requires |ws| > 0 && i != 0
    ensures i in WordStarts(ws) <==> i >= |ws[0]| && i - |ws[0]| in WordStarts(ws[1..])
  {
    if i >= |ws[0]| && i - |ws[0]| in WordStarts(ws[1..]) {
      var j: nat := i - |ws[0]|;
      assert i == j + |ws[0]|;
    }
  }

  /** `CapitalizeEach` upper-cases the first letter of every word and leaves
      every other letter as it is. */
  lemma {:induction false} CapitalizeEachAt(ws: seq<string>)
    ensures |Concat(CapitalizeEach(ws))| == |Concat(ws)|
    ensures forall i | 0 <= i < |Concat(ws)| ::
      Concat(CapitalizeEach(ws))[i] == if i in WordStarts(ws) then ToUpper(Concat(ws)[i]) else Concat(ws)[i]
  {
    if |ws| > 0 {
      var cs := CapitalizeEach(ws);
      assert cs[1..] == CapitalizeEach(ws[1..]);
      CapitalizeEachAt(ws[1..]);
      var w, rest := ws[0], Concat(ws[1..]);
      var crest := Concat(CapitalizeEach(ws[1..]));
      assert Concat(ws) == w + rest;
      assert Concat(cs) == Capitalize(w) + crest;
      forall i | 0 <= i < |Concat(ws)|
        ensures Concat(cs)[i] == if i in WordStarts(ws) then ToUpper(Concat(ws)[i]) else Concat(ws)[i]
      {
        if i >= |w| {
          var j := i - |w|;
          assert Concat(cs)[i] == crest[j] && Concat(ws)[i] == rest[j];
          if i == 0 {
            assert 0 in WordStarts(ws[1..]);
          } else {
            WordStartsCons(ws, i);
          }
        } else if i > 0 {
          WordStartsCons(ws, i);
        }
      }
    }
  }

  lemma ToUpperToLower(c: char)
    ensures ToUpper(ToLower(c)) == ToUpper(c)
  {
  }

  /** The letters of `CamelCase<K>`: `K` without its delimiters (lower-cased
      first if it is all upper-case), its first letter lower-cased, the first
      letter of every later word upper-cased, and every other letter kept as
      it is. */
  lemma CamelCaseLetters(s: string)
    ensures |CamelCase(s)| == |Without(Normalize(s), Delimiters)|
    ensures forall i | 0 <= i < |CamelCase(s)| ::
      CamelCase(s)[i] == (var c := Without(Normalize(s), Delimiters)[i];
                          if i == 0 then ToLower(c)
                          else if i in WordStarts(Words(Normalize(s))) then ToUpper(c)
                          else c)
  {
    var ws := Words(Normalize(s));
    var t := Without(Normalize(s), Delimiters);
    WordsPartition(Normalize(s));
    assert Concat(ws) == t;
    if |ws| > 0 {
      var w := ws[0];
      var tail := Concat(CapitalizeEach(ws[1..]));
      CapitalizeEachAt(ws[1..]);
      assert t == w + Concat(ws[1..]);
      assert CamelCase(s) == Uncapitalize(w) + tail;
      forall i | 0 <= i < |CamelCase(s)|
        ensures CamelCase(s)[i] == if i == 0 then ToLower(t[i])
                                   else if i in WordStarts(ws) then ToUpper(t[i]) else t[i]
      {
        if i > 0 {
          WordStartsCons(ws, i);
          if i >= |w| {
            assert CamelCase(s)[i] == tail[i - |w|] && t[i] == Concat(ws[1..])[i - |w|];
          }
        }
      }
    }
  }

  /** The letters of `PascalCase<K>`: as for `CamelCase`, except that the
      first letter is upper-cased too, as the first letter of every word. */
  lemma PascalCaseLetters(s: string)
    ensures |PascalCase(s)| == |Without(Normalize(s), Delimiters)|
    ensures forall i | 0 <= i < |PascalCase(s)| ::
      PascalCase(s)[i] == (var c := Without(Normalize(s), Delimiters)[i];
                           if i in WordStarts(Words(Normalize(s))) then ToUpper(c) else c)
  {
    var ws := Words(Normalize(s));
    var t := Without(Normalize(s), Delimiters);
    CamelCaseLetters(s);
    if |t| > 0 {
      WordsPartition(Normalize(s));
      assert |ws| > 0;
      assert 0 in WordStarts(ws);
      ToUpperToLower(t[0]);
    }
  }

  // ---------------------------------------------------------------- composing words

  lemma {:induction false} SplitWhereAcrossSeparator(a: string, c: char, b: string, seps: set<char>)
    requires c in seps
    ensures SplitWhere(a + [c] + b, seps) == SplitWhere(a, seps) + SplitWhere(b, seps)
  {
    var s := a + [c] + b;
    if |a| == 0 {
      assert s == [c] + b && s[1..] == b;
    } else {
      assert s[0] == a[0] && s[1..] == a[1..] + [c] + b;
      SplitWhereAcrossSeparator(a[1..], c, b, seps);
    }
  }

  lemma {:induction false} SplitAllHumpsAppend(x: seq<string>, y: seq<string>)
    ensures SplitAllHumps(x + y) == SplitAllHumps(x) + SplitAllHumps(y)
  {
    if |x| == 0 {
      assert x + y == y;
    } else {
      assert (x + y)[1..] == x[1..] + y;
      SplitAllHumpsAppend(x[1..], y);
    }
  }

  lemma {:induction false} NonEmptyAppend(x: seq<string>, y: seq<string>)
    ensures NonEmpty(x + y) == NonEmpty(x) + NonEmpty(y)
  {
    if |x| == 0 {
      assert x + y == y;
    } else {
      assert (x + y)[1..] == x[1..] + y;
      NonEmptyAppend(x[1..], y);
    }
  }

  /** A delimiter ends one word and starts the next; it is itself dropped. */
  lemma WordsAcrossDelimiter(a: string, c: char, b: string)
    requires c in Delimiters
    ensures Words(a + [c] + b) == Words(a) + Words(b)
  {
    SplitWhereAcrossSeparator(a, c, b, Delimiters);
    SplitAllHumpsAppend(SplitWhere(a, Delimiters), SplitWhere(b, Delimiters));
    NonEmptyAppend(SplitAllHumps(SplitWhere(a, Delimiters)), SplitAllHumps(SplitWhere(b, Delimiters)));
  }

  lemma {:induction false} SplitHumpsAcross(a: string, b: string)
    requires |a| > 0 && |b| > 0 && IsHump(a[|a| - 1], b[0])
    ensures SplitHumps(a + b) == SplitHumps(a) + SplitHumps(b)
  {
    if |a| == 1 {
      SplitHumpsAfterOne(a, b);
    } else {
      var w := a + b;
      assert w[0] == a[0] && w[1] == a[1];
      assert w[1..] == a[1..] + b;
      assert a[1..][|a[1..]| - 1] == a[|a| - 1];
      SplitHumpsAcross(a[1..], b);
      SplitHumpsCons(w);
      SplitHumpsCons(a);
      ConsWords(a[0], SplitHumps(a[1..]), SplitHumps(b), IsHump(a[0], a[1]));
    }
  }

  /** One step of `SplitHumps`: the first character starts a word of its own
      before a hump and joins the first word of the rest otherwise. */
  lemma SplitHumpsCons(w: string)
    requires |w| > 1
    ensures SplitHumps(w) == ConsWord(w[0], SplitHumps(w[1..]), IsHump(w[0], w[1]))
  {
  }

  function ConsWord(c: char, x: seq<string>, hump: bool): seq<string>
    requires |x| >= 1
  {
    if hump then [[c]] + x else [[c] + x[0]] + x[1..]
  }

  lemma ConsWords(c: char, x: seq<string>, y: seq<string>, hump: bool)
    requires |x| >= 1
    ensures ConsWord(c, x + y, hump) == ConsWord(c, x, hump) + y
  {
    if !hump {
      assert (x + y)[0] == x[0];
      assert (x + y)[1..] == x[1..] + y;
    }
  }

  lemma SplitHumpsAfterOne(a: string, b: string)
    requires |a| == 1 && |b| > 0 && IsHump(a[0], b[0])
    ensures SplitHumps(a + b) == SplitHumps(a) + SplitHumps(b)
  {
    var w := a + b;
    assert w[0] == a[0] && w[1..] == b && w[1] == b[0];
    assert SplitHumps(w) == [[w[0]]] + SplitHumps(w[1..]);
    assert SplitHumps(a) == [a] && a == [w[0]];
  }

  lemma SplitWhereSeparatorFree(w: string, seps: set<char>)
    requires NoneIn(w, seps)
    ensures SplitWhere(w, seps) == [w]
  {
    SplitAfterSeparatorFree(w, "", seps);
    assert w + "" == w;
  }

  lemma WordsOfDelimiterFree(w: string)
    requires NoneIn(w, Delimiters)
    ensures Words(w) == NonEmpty(SplitHumps(w))
  {
    SplitWhereSeparatorFree(w, Delimiters);
    assert [w][1..] == [];
    assert SplitAllHumps([w]) == SplitHumps(w) + SplitAllHumps([]);
    assert SplitHumps(w) + [] == SplitHumps(w);
  }

  /** A lower-to-upper hump between two delimiter-free parts also separates words. */
  lemma WordsAcrossHump(a: string, b: string)
    requires |a| > 0 && |b| > 0 && IsHump(a[|a| - 1], b[0])
    requires NoneIn(a, Delimiters) && NoneIn(b, Delimiters)
    ensures Words(a + b) == Words(a) + Words(b)
  {
    WordsOfDelimiterFree(a);
    WordsOfDelimiterFree(b);
    WordsOfDelimiterFree(a + b);
    SplitHumpsAcross(a, b);
    NonEmptyAppend(SplitHumps(a), SplitHumps(b));
  }

  /** A non-empty word without delimiters or humps is one word. */
  lemma WordsOfOneWord(w: string)
    requires w != "" && NoneIn(w, Delimiters) && NoHump(w)
    ensures Words(w) == [w]
  {
    WordsOfDelimiterFree(w);
    SingleHumpFree(w);
    assert [w][1..] == [];
    assert NonEmpty([w]) == [w] + NonEmpty([]);
  }
}
