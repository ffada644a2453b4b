/**
 String case conversion at the level of literal string types: `Split`, the word
 splitter behind `CamelCase`, `CamelCase` itself and `PascalCase` (used to rename
 keys). Case mapping is ASCII only.
 */
module CaseConversion {

  predicate IsUpper(c: char) { 'A' <= c <= 'Z' }
  predicate IsLower(c: char) { 'a' <= c <= 'z' }

  function ToUpper(c: char): (u: char)
    ensures !IsLower(u)
    ensures IsLower(c) ==> IsUpper(u)
    ensures !IsLower(c) ==> u == c
  {
    if IsLower(c) then (c as int - 'a' as int + 'A' as int) as char else c
  }

  function ToLower(c: char): (l: char)
    ensures !IsUpper(l)
    ensures IsUpper(c) ==> IsLower(l)
    ensures !IsUpper(c) ==> l == c
  {
    if IsUpper(c) then (c as int - 'A' as int + 'a' as int) as char else c
  }

  /** Upper-casing first does not change what lower-casing gives. */
  lemma ToLowerToUpper(c: char)
    ensures ToLower(ToUpper(c)) == ToLower(c)
  {
  }

  /** TypeScript's intrinsic `Lowercase`. */
  function Lowercase(s: string): (r: string)
    ensures |r| == |s|
    ensures forall i :: 0 <= i < |r| ==> !IsUpper(r[i])
    ensures forall i :: 0 <= i < |s| && !IsUpper(s[i]) ==> r[i] == s[i]
  {
    seq(|s|, i requires 0 <= i < |s| => ToLower(s[i]))
  }

  /** TypeScript's intrinsic `Uppercase`. */
  function Uppercase(s: string): (r: string)
    ensures |r| == |s|
    ensures forall i :: 0 <= i < |r| ==> !IsLower(r[i])
    ensures forall i :: 0 <= i < |s| && !IsLower(s[i]) ==> r[i] == s[i]
  {
    seq(|s|, i requires 0 <= i < |s| => ToUpper(s[i]))
  }

  /** TypeScript's intrinsic `Capitalize`: only the first character changes. */
  function Capitalize(s: string): (r: string)
    ensures |r| == |s|
    ensures |s| > 0 ==> r[0] == ToUpper(s[0]) && r[1..] == s[1..]
  {
    if |s| == 0 then s else [ToUpper(s[0])] + s[1..]
  }

  /** TypeScript's intrinsic `Uncapitalize`: only the first character changes. */
  function Uncapitalize(s: string): (r: string)
    ensures |r| == |s|
    ensures |s| > 0 ==> r[0] == ToLower(s[0]) && r[1..] == s[1..]
  {
    if |s| == 0 then s else [ToLower(s[0])] + s[1..]
  }

  predicate NoneIn(s: string, seps: set<char>)
  {
    forall i :: 0 <= i < |s| ==> s[i] !in seps
  }

  /** The characters of `s` that are not separators, in order. */
  function Without(s: string, seps: set<char>): (r: string)
    ensures NoneIn(r, seps)
    ensures |r| <= |s|
  {
    if |s| == 0 then ""
    else if s[0] in seps then Without(s[1..], seps)
    else [s[0]] + Without(s[1..], seps)
  }

  /** Splits at every separator character; empty segments are kept, so the
      result has one segment more than `s` has separators. */
  function SplitWhere(s: string, seps: set<char>): (r: seq<string>)
    ensures |r| >= 1
    ensures forall i :: 0 <= i < |r| ==> NoneIn(r[i], seps)
  {
    if |s| == 0 then [""]
    else
      var rest := SplitWhere(s[1..], seps);
      if s[0] in seps then [""] + rest
      else [[s[0]] + rest[0]] + rest[1..]
  }

  /** `Split<S, Delimiter>` for a one-character delimiter. */
  function Split(s: string, d: char): (r: seq<string>)
    ensures |r| >= 1
    ensures forall i :: 0 <= i < |r| ==> d !in r[i]
  {
    var r := SplitWhere(s, {d});
    assert forall i :: 0 <= i < |r| ==> NoneIn(r[i], {d});
    r
  }

  /** The inverse of `Split`: the parts separated by the delimiter. */
  function Join(parts: seq<string>, d: char): string
  {
    if |parts| == 0 then ""
    else if |parts| == 1 then parts[0]
    else parts[0] + [d] + Join(parts[1..], d)
  }

  function Concat(ws: seq<string>): string
  {
    if |ws| == 0 then "" else ws[0] + Concat(ws[1..])
  }

  /** A lower-case letter followed by an upper-case one starts a new word. */
  predicate IsHump(a: char, b: char) { IsLower(a) && IsUpper(b) }

  predicate NoHump(w: string)
  {
    forall i :: 0 <= i < |w| - 1 ==> !IsHump(w[i], w[i + 1])
  }

  /** Cuts a delimiter-free segment at every lower-to-upper hump. */
  function SplitHumps(w: string): (r: seq<string>)
    ensures |r| >= 1
  {
    if |w| <= 1 then [w]
    else
      var rest := SplitHumps(w[1..]);
      if IsHump(w[0], w[1]) then [[w[0]]] + rest
      else [[w[0]] + rest[0]] + rest[1..]
  }

  function SplitAllHumps(segments: seq<string>): seq<string>
  {
    if |segments| == 0 then [] else SplitHumps(segments[0]) + SplitAllHumps(segments[1..])
  }

  function NonEmpty(ws: seq<string>): (r: seq<string>)
    ensures forall i :: 0 <= i < |r| ==> r[i] != ""
  {
    if |ws| == 0 then []
    else if ws[0] == "" then NonEmpty(ws[1..])
    else [ws[0]] + NonEmpty(ws[1..])
  }

  /** `-`, `_` and space separate words. */
  const Delimiters: set<char> := {'-', '_', ' '}

  /** The words of `s`: cut at delimiters and humps, empty words dropped. */
  function Words(s: string): seq<string>
  {
    NonEmpty(SplitAllHumps(SplitWhere(s, Delimiters)))
  }

  function CapitalizeEach(ws: seq<string>): (r: seq<string>)
    ensures |r| == |ws|
  {
    if |ws| == 0 then [] else [Capitalize(ws[0])] + CapitalizeEach(ws[1..])
  }

  /** An all-upper-case input is lower-cased before it is split. */
  function Normalize(s: string): string
  {
    if Uppercase(s) == s then Lowercase(s) else s
  }

  /** `CamelCase<K>`: the first word uncapitalised, every later word capitalised,
      delimiters removed. */
  function CamelCase(s: string): (r: string)
    ensures |r| > 0 ==> !IsUpper(r[0])
  {
    var ws := Words(Normalize(s));
    if |ws| == 0 then "" else Uncapitalize(ws[0]) + Concat(CapitalizeEach(ws[1..]))
  }

  /** `PascalCase<K>`: `CamelCase` with its first character capitalised. */
  function PascalCase(s: string): (r: string)
    ensures |r| == |CamelCase(s)|
    ensures |r| > 0 ==> !IsLower(r[0])
  {
    Capitalize(CamelCase(s))
  }
}
