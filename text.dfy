/**
 * The JavaScript string built-ins the renderer relies on, over `string`
 * (a `char` of the model is a Unicode scalar value, which is one UTF-16
 * code unit of the source only inside the Basic Multilingual Plane):
 * the `\s` character class, `trimEnd`/`trimStart`/`trim`, `split` on a
 * character, `replace(/\r\n?/g, '\n')`, the tokeniser
 * `split(/(\s+)/).filter(Boolean)`, `split(/\s+/)`,
 * `replace(/\s+/g, '')` and ASCII `toUpperCase`.
 */
module Text {

  /** The characters JavaScript's `\s` and `trim` treat as white space. */
  predicate IsSpace(c: char) {
    || c == ' ' || c == '\t' || c == '\n' || c == '\U{000B}' || c == '\U{000C}' || c == '\r'
    || c == '\U{00A0}' || c == '\U{1680}' || ('\U{2000}' <= c <= '\U{200A}')
    || c == '\U{2028}' || c == '\U{2029}' || c == '\U{202F}' || c == '\U{205F}'
    || c == '\U{3000}' || c == '\U{FEFF}'
  }

  predicate EndsInSpace(s: string) {
    s != [] && IsSpace(s[|s| - 1])
  }

  predicate AllSpace(s: string) {
    forall i | 0 <= i < |s| :: IsSpace(s[i])
  }

  predicate NoSpace(s: string) {
    forall i | 0 <= i < |s| :: !IsSpace(s[i])
  }

  /** `s.trimEnd()`: the longest prefix of `s` that does not end in white space. */
  function TrimEnd(s: string): (r: string)
    ensures |r| <= |s| && r == s[..|r|]
    ensures !EndsInSpace(r)
    ensures forall i | |r| <= i < |s| :: IsSpace(s[i])
  {
    if s != [] && IsSpace(s[|s| - 1]) then TrimEnd(s[..|s| - 1]) else s
  }

  /** `s.trimStart()`: the longest suffix of `s` that does not start with white space. */
  function TrimStart(s: string): (r: string)
    ensures |r| <= |s| && r == s[|s| - |r|..]
    ensures r == [] || !IsSpace(r[0])
    ensures forall i | 0 <= i < |s| - |r| :: IsSpace(s[i])
  {
    if s != [] && IsSpace(s[0]) then TrimStart(s[1..]) else s
  }

  /** `s.trim()`: white space removed from both ends. */
  function Trim(s: string): (r: string)
    ensures r == [] <==> AllSpace(s)
    ensures r != [] ==> !IsSpace(r[0]) && !IsSpace(r[|r| - 1])
    ensures r != [] ==> r[0] == TrimStart(s)[0]
  {
    var t := TrimStart(s);
    assert t == [] ==> AllSpace(s);
    TrimEnd(t)
  }

  /** `s.trim()` is the slice of `s` that starts where `trimStart` leaves off. */
  lemma {:induction false} TrimSlice(s: string)
    ensures var k := |s| - |TrimStart(s)|;
      k + |Trim(s)| <= |s| && Trim(s) == s[k..k + |Trim(s)|]
  {
    var t := TrimStart(s);
    var k := |s| - |t|;
    assert t == s[k..];
    assert Trim(s) == t[..|Trim(s)|];
  }

  /** Around the slice `s.trim()` keeps there is nothing but white space. */
  lemma {:induction false} TrimSurroundings(s: string)
    ensures var k := |s| - |TrimStart(s)|;
      k + |Trim(s)| <= |s| && AllSpace(s[..k]) && AllSpace(s[k + |Trim(s)|..])
  {
    LeadingSpace(s);
    SpaceAfterTrim(s);
  }

  /** After the slice `s.trim()` keeps there is nothing but white space. */
  lemma {:induction false} SpaceAfterTrim(s: string)
    ensures var k := |s| - |TrimStart(s)|;
      k + |Trim(s)| <= |s| && AllSpace(s[k + |Trim(s)|..])
  {
    SpaceAfterTrimEnd(s, |s| - |TrimStart(s)|, TrimStart(s));
  }

  /** What `trimEnd` drops from the suffix `t == s[k..]` is white space to the end of `s`. */
  lemma SpaceAfterTrimEnd(s: string, k: nat, t: string)
    requires k <= |s| && t == s[k..]
    ensures k + |TrimEnd(t)| <= |s| && AllSpace(s[k + |TrimEnd(t)|..])
  {
    var n := |TrimEnd(t)|;
    var rest := s[k + n..];
    forall i | 0 <= i < |rest|
      ensures IsSpace(rest[i])
    {
      assert rest[i] == t[n + i];
    }
  }

  /** What `trimStart` removes is white space. */
  lemma {:induction false} LeadingSpace(s: string)
    ensures AllSpace(s[..|s| - |TrimStart(s)|])
  {
    var k := |s| - |TrimStart(s)|;
    forall i | 0 <= i < k
      ensures IsSpace(s[..k][i])
    {
      assert s[..k][i] == s[i];
    }
  }

  /** `ss.join('')`. */
  function Concat(ss: seq<string>): string {
    if ss == [] then "" else ss[0] + Concat(ss[1..])
  }

  /** `parts.join(sep)` for a one-character separator. */
  function Join(parts: seq<string>, sep: char): string {
    if |parts| == 0 then ""
    else if |parts| == 1 then parts[0]
    else parts[0] + [sep] + Join(parts[1..], sep)
  }

  /** Every character of a part appears in the joined string. */
  lemma {:induction false} JoinContains(parts: seq<string>, sep: char, i: int, c: char)
    requires 0 <= i < |parts| && c in parts[i]
    ensures c in Join(parts, sep)
  {
    if |parts| > 1 {
      var rest := Join(parts[1..], sep);
      var joined := parts[0] + [sep] + rest;
      assert Join(parts, sep) == joined;
      if i > 0 {
        assert parts[1..][i - 1] == parts[i];
        JoinContains(parts[1..], sep, i - 1, c);
        var k :| 0 <= k < |rest| && rest[k] == c;
        assert joined[|parts[0]| + 1 + k] == c;
      } else {
        var k :| 0 <= k < |parts[0]| && parts[0][k] == c;
        assert joined[k] == c;
      }
    } else {
      assert Join(parts, sep) == parts[0];
    }
  }

  /** A character missing from the joined string is missing from every part. */
  lemma JoinExcludes(parts: seq<string>, sep: char, c: char)
    requires c !in Join(parts, sep)
    ensures forall i | 0 <= i < |parts| :: c !in parts[i]
  {
    forall i | 0 <= i < |parts|
      ensures c !in parts[i]
    {
      if c in parts[i] {
        JoinContains(parts, sep, i, c);
      }
    }
  }

  /** `s.split(sep)` for a one-character separator: never empty, `""` gives `[""]`. */
  function Split(s: string, sep: char): (parts: seq<string>)
    ensures |parts| >= 1
    ensures forall i | 0 <= i < |parts| :: sep !in parts[i]
  {
    if s == [] then [""]
    else
      var rest := Split(s[1..], sep);
      if s[0] == sep then [""] + rest else [[s[0]] + rest[0]] + rest[1..]
  }

  /** Joining what `Split` returns gives back the original string. */
  lemma {:induction false} JoinSplit(s: string, sep: char)
    ensures Join(Split(s, sep), sep) == s
  {
    if s != [] {
      JoinSplit(s[1..], sep);
      var rest := Split(s[1..], sep);
      if s[0] != sep {
        if |rest| > 1 {
          assert [s[0]] + rest[0] + [sep] + Join(rest[1..], sep) == [s[0]] + Join(rest, sep);
        }
      }
      assert s == [s[0]] + s[1..];
    }
  }

  /** Splitting a join of separator-free parts gives back the parts. */
  lemma {:induction false} SplitJoin(parts: seq<string>, sep: char)
    requires |parts| >= 1
    requires forall i | 0 <= i < |parts| :: sep !in parts[i]
    ensures Split(Join(parts, sep), sep) == parts
  {
    if |parts| == 1 {
      SplitPlain(parts[0], sep);
    } else {
      SplitJoin(parts[1..], sep);
      SplitPrefix(parts[0], Join(parts[1..], sep), sep);
      assert Join(parts, sep) == parts[0] + ([sep] + Join(parts[1..], sep));
      assert [parts[0]] + parts[1..] == parts;
    }
  }

  /** A string without the separator splits into itself. */
  lemma {:induction false} SplitPlain(s: string, sep: char)
    requires sep !in s
    ensures Split(s, sep) == [s]
  {
    if s != [] {
      SplitPlain(s[1..], sep);
      assert [s[0]] + s[1..] == s;
    }
  }

  /** A separator-free prefix becomes the first part, glued in front of the parts after it. */
  lemma {:induction false} SplitPrefix(a: string, b: string, sep: char)
    requires sep !in a
    ensures Split(a + [sep] + b, sep) == [a] + Split(b, sep)
  {
    if a == [] {
      assert a + [sep] + b == [sep] + b;
      assert ([sep] + b)[1..] == b;
    } else {
      SplitPrefix(a[1..], b, sep);
      assert (a + [sep] + b)[1..] == a[1..] + [sep] + b;
      assert [a[0]] + a[1..] == a;
    }
  }

  /** `s.replace(/\r\n?/g, '\n')`: every CRLF pair and every lone CR becomes LF. */
  function NormalizeNewlines(s: string): (r: string)
    ensures '\r' !in r
    ensures '\r' !in s ==> r == s
    ensures |r| <= |s|
    decreases |s|
  {
    if s == [] then []
    else if s[0] == '\r' then
      "\n" + NormalizeNewlines(if |s| > 1 && s[1] == '\n' then s[2..] else s[1..])
    else
      assert '\r' !in s ==> '\r' !in s[1..];
      assert s == [s[0]] + s[1..];
      [s[0]] + NormalizeNewlines(s[1..])
  }

  /** Text without a CR passes through unchanged in front of what follows it. */
  lemma {:induction false} NormalizeNewlinesPrefix(a: string, b: string)
    requires '\r' !in a
    ensures NormalizeNewlines(a + b) == a + NormalizeNewlines(b)
  {
    if a != [] {
      var c, rest := a[0], a[1..];
      assert a == [c] + rest;
      assert c != '\r' && '\r' !in rest;
      var s := [c] + (rest + b);
      assert a + b == s;
      assert s[0] == c && s[1..] == rest + b;
      assert NormalizeNewlines(s) == [c] + NormalizeNewlines(rest + b);
      NormalizeNewlinesPrefix(rest, b);
      assert [c] + (rest + NormalizeNewlines(b)) == a + NormalizeNewlines(b);
    } else {
      assert a + b == b;
    }
  }

  /** A CRLF pair becomes one LF; the text before it is kept as it is. */
  lemma {:induction false} NormalizeNewlinesCrLf(a: string, b: string)
    requires '\r' !in a
    ensures NormalizeNewlines(a + "\r\n" + b) == a + "\n" + NormalizeNewlines(b)
  {
    var t := "\r\n" + b;
    assert a + "\r\n" + b == a + t;
    NormalizeNewlinesPrefix(a, t);
    assert t[0] == '\r' && |t| > 1 && t[1] == '\n' && t[2..] == b;
    assert NormalizeNewlines(t) == "\n" + NormalizeNewlines(b);
  }

  /** A CR not followed by LF becomes one LF as well. */
  lemma {:induction false} NormalizeNewlinesLoneCr(a: string, b: string)
    requires '\r' !in a && (b == [] || b[0] != '\n')
    ensures NormalizeNewlines(a + "\r" + b) == a + "\n" + NormalizeNewlines(b)
  {
    var t := "\r" + b;
    assert a + "\r" + b == a + t;
    NormalizeNewlinesPrefix(a, t);
    assert t[0] == '\r' && !(|t| > 1 && t[1] == '\n') && t[1..] == b;
    assert NormalizeNewlines(t) == "\n" + NormalizeNewlines(b);
  }

  /** Length of the maximal run at the start of `s` whose characters are all white space or all not. */
  function RunLength(s: string): (n: nat)
    requires s != []
    ensures 1 <= n <= |s|
    ensures forall i | 0 <= i < n :: IsSpace(s[i]) == IsSpace(s[0])
    ensures n < |s| ==> IsSpace(s[n]) != IsSpace(s[0])
  {
    if |s| == 1 || IsSpace(s[1]) != IsSpace(s[0]) then 1 else 1 + RunLength(s[1..])
  }

  /** A token: non-empty, and either all white space or free of it. */
  predicate Uniform(t: string) {
    t != [] && forall i | 0 <= i < |t| :: IsSpace(t[i]) == IsSpace(t[0])
  }

  /**
   * `p.split(/(\s+)/).filter(Boolean)`: the maximal runs of white space and of
   * non-white space, in order, nothing dropped and nothing empty.
   */
  function Tokens(p: string): (ts: seq<string>)
    ensures Concat(ts) == p
    ensures forall i | 0 <= i < |ts| :: Uniform(ts[i])
    ensures forall i, j | 0 <= i && j == i + 1 && j < |ts| ::
      ts[i] != [] && ts[j] != [] && IsSpace(ts[i][0]) != IsSpace(ts[j][0])
    ensures p != [] ==> ts != [] && ts[0] != [] && ts[0][0] == p[0]
    decreases |p|
  {
    if p == [] then []
    else
      var n := RunLength(p);
      assert p == p[..n] + p[n..];
      [p[..n]] + Tokens(p[n..])
  }

  /** Length of the white-space run at the start of `s`. */
  function SpaceRunLength(s: string): (n: nat)
    ensures n <= |s|
    ensures AllSpace(s[..n])
    ensures n < |s| ==> !IsSpace(s[n])
  {
    if s != [] && IsSpace(s[0]) then 1 + SpaceRunLength(s[1..]) else 0
  }

  /**
   * `s.split(/\s+/)`: the pieces between maximal white-space runs; `""` gives
   * `[""]` and a leading or trailing run gives an empty piece at that end.
   */
  function SplitOnSpaceRuns(s: string): (words: seq<string>)
    ensures |words| >= 1
    ensures forall i | 0 <= i < |words| :: NoSpace(words[i])
    ensures |words| == 1 <==> NoSpace(s)
    ensures NoSpace(s) ==> words == [s]
    ensures s != [] && !IsSpace(s[0]) ==> words[0] != [] && words[0][0] == s[0]
    decreases |s|
  {
    if s == [] then [""]
    else if IsSpace(s[0]) then
      var n := SpaceRunLength(s);
      [""] + SplitOnSpaceRuns(s[n..])
    else
      var rest := SplitOnSpaceRuns(s[1..]);
      assert NoSpace(s) <==> NoSpace(s[1..]);
      assert s == [s[0]] + s[1..];
      [[s[0]] + rest[0]] + rest[1..]
  }

  /** The white-space run in front of a non-space character ends at that character. */
  lemma {:induction false} SpaceRunLengthExact(sp: string, b: string)
    requires AllSpace(sp) && (b == [] || !IsSpace(b[0]))
    ensures SpaceRunLength(sp + b) == |sp|
  {
    if sp == [] {
      assert sp + b == b;
    } else {
      assert (sp + b)[1..] == sp[1..] + b;
      SpaceRunLengthExact(sp[1..], b);
    }
  }

  /**
   * A word, a non-empty run of white space and the rest: the word is the
   * first piece, and the pieces of the rest follow. With `NoSpace(s) ==>
   * words == [s]` this pins down every piece of `split(/\s+/)`.
   */
  lemma {:induction false} SplitOnSpaceRunsWord(a: string, sp: string, b: string)
    requires NoSpace(a) && sp != [] && AllSpace(sp) && (b == [] || !IsSpace(b[0]))
    ensures SplitOnSpaceRuns(a + sp + b) == [a] + SplitOnSpaceRuns(b)
  {
    var s := a + sp + b;
    if a == [] {
      assert s == sp + b;
      SpaceRunLengthExact(sp, b);
      assert s[|sp|..] == b;
    } else {
      assert s[0] == a[0] && s[1..] == a[1..] + sp + b;
      SplitOnSpaceRunsWord(a[1..], sp, b);
      assert [a[0]] + a[1..] == a;
    }
  }

  /** Between a non-space first and last character, `split(/\s+/)` yields no empty piece. */
  lemma {:induction false} SplitOnSpaceRunsNonEmpty(s: string)
    requires s != [] && !IsSpace(s[0]) && !IsSpace(s[|s| - 1])
    ensures forall i | 0 <= i < |SplitOnSpaceRuns(s)| :: SplitOnSpaceRuns(s)[i] != []
  {
    var t := s[1..];
    if t != [] {
      if IsSpace(t[0]) {
        var n := SpaceRunLength(t);
        assert n < |t|;
        SplitOnSpaceRunsNonEmpty(t[n..]);
        assert SplitOnSpaceRuns(t) == [""] + SplitOnSpaceRuns(t[n..]);
      } else {
        SplitOnSpaceRunsNonEmpty(t);
      }
    }
  }

  /**
   * A string that starts with a non-space character and has white space
   * inside is its first word, the white-space run after it and the rest,
   * which starts with a non-space character when the string ends with one.
   */
  lemma {:induction false} FirstWordAndRun(t: string)
    requires t != [] && !IsSpace(t[0]) && !IsSpace(t[|t| - 1]) && !NoSpace(t)
    ensures var k := RunLength(t);
      var j := k + SpaceRunLength(t[k..]);
      && k < j < |t| && !IsSpace(t[j])
      && NoSpace(t[..k]) && AllSpace(t[k..j]) && t == t[..k] + t[k..j] + t[j..]
  {
    FirstRun(t);
    var k := RunLength(t);
    var u := t[k..];
    assert u[0] == t[k] && u[|u| - 1] == t[|t| - 1];
    SpaceRunBeforeWord(u);
    var m := SpaceRunLength(u);
    assert u[..m] == t[k..k + m];
    assert u[m] == t[k + m];
    assert t == t[..k] + t[k..k + m] + t[k + m..];
  }

  /** The first run of a string that starts with a word and has white space in it is that word. */
  lemma {:induction false} FirstRun(t: string)
    requires t != [] && !IsSpace(t[0]) && !NoSpace(t)
    ensures RunLength(t) < |t| && IsSpace(t[RunLength(t)]) && NoSpace(t[..RunLength(t)])
  {
    var k := RunLength(t);
    var w :| 0 <= w < |t| && IsSpace(t[w]);
    assert k <= w;
    forall i | 0 <= i < k
      ensures !IsSpace(t[..k][i])
    {
      assert t[..k][i] == t[i];
    }
  }

  /** A white-space run at the front of a string that ends in a non-space character stops before the end. */
  lemma {:induction false} SpaceRunBeforeWord(u: string)
    requires u != [] && IsSpace(u[0]) && !IsSpace(u[|u| - 1])
    ensures var m := SpaceRunLength(u); 0 < m < |u| && !IsSpace(u[m]) && AllSpace(u[..m])
  {
  }

  /**
   * In a string with white space inside and none at either end, the second
   * piece of `split(/\s+/)` starts right after the first white-space run.
   */
  lemma {:induction false} SplitOnSpaceRunsSecond(t: string)
    requires t != [] && !IsSpace(t[0]) && !IsSpace(t[|t| - 1]) && !NoSpace(t)
    ensures var k := RunLength(t);
      var j := k + SpaceRunLength(t[k..]);
      && j < |t| && |SplitOnSpaceRuns(t)| >= 2
      && SplitOnSpaceRuns(t)[1] != [] && SplitOnSpaceRuns(t)[1][0] == t[j]
  {
    FirstWordAndRun(t);
    var k := RunLength(t);
    var j := k + SpaceRunLength(t[k..]);
    var b := t[j..];
    assert b[0] == t[j];
    SplitOnSpaceRunsWord(t[..k], t[k..j], b);
    assert SplitOnSpaceRuns(t)[1] == SplitOnSpaceRuns(b)[0];
  }

  /** `s.replace(/\s+/g, '')`: every white-space character removed, the rest kept in order. */
  function RemoveSpaces(s: string): (r: string)
    ensures NoSpace(r)
    ensures NoSpace(s) ==> r == s
    ensures |r| <= |s|
  {
    if s == [] then ""
    else if IsSpace(s[0]) then RemoveSpaces(s[1..])
    else
      assert NoSpace(s) ==> NoSpace(s[1..]);
      assert s == [s[0]] + s[1..];
      [s[0]] + RemoveSpaces(s[1..])
  }

  /** A white-space character is dropped, any other kept. */
  lemma RemoveSpacesChar(c: char)
    ensures IsSpace(c) ==> RemoveSpaces([c]) == ""
    ensures !IsSpace(c) ==> RemoveSpaces([c]) == [c]
  {
    assert [c][1..] == [];
  }

  /** Removing white space works piece by piece, so the other characters keep their order. */
  lemma {:induction false} RemoveSpacesAppend(a: string, b: string)
    ensures RemoveSpaces(a + b) == RemoveSpaces(a) + RemoveSpaces(b)
  {
    if a != [] {
      var s := a + b;
      assert s[0] == a[0] && s[1..] == a[1..] + b;
      RemoveSpacesAppend(a[1..], b);
      if IsSpace(a[0]) {
        assert RemoveSpaces(s) == RemoveSpaces(a[1..] + b);
      } else {
        assert RemoveSpaces(s) == [a[0]] + RemoveSpaces(a[1..] + b);
        assert RemoveSpaces(a) == [a[0]] + RemoveSpaces(a[1..]);
      }
    } else {
      assert a + b == b;
    }
  }

  predicate IsLowerAscii(c: char) {
    'a' <= c <= 'z'
  }

  function UpperChar(c: char): char {
    if IsLowerAscii(c) then (c as int - 32) as char else c
  }

  /** `s.toUpperCase()` restricted to the ASCII letters; every other character is kept. */
  function ToUpper(s: string): (r: string)
    ensures |r| == |s|
    ensures forall i | 0 <= i < |r| :: !IsLowerAscii(r[i])
    ensures forall i | 0 <= i < |s| :: r[i] == s[i] || (IsLowerAscii(s[i]) && r[i] as int == s[i] as int - 32)
    ensures forall i | 0 <= i < |s| :: IsLowerAscii(s[i]) ==> r[i] as int == s[i] as int - 32
  {
    if s == [] then "" else [UpperChar(s[0])] + ToUpper(s[1..])
  }
}
