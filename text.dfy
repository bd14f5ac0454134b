/** The string primitives the deal board's search and login validation rely on:
    JavaScript's String.prototype.toLowerCase (restricted to ASCII letters),
    String.prototype.trim and String.prototype.includes. */
module Text {

  /** ASCII lower-casing of one character; every other character is unchanged. */
  function LowerChar(c: char): (r: char)
    ensures 'A' <= c <= 'Z' ==> 'a' <= r <= 'z' && r as int - c as int == 32
    ensures !('A' <= c <= 'Z') ==> r == c
  {
    if 'A' <= c <= 'Z' then (c as int + 32) as char else c
  }

  /** toLowerCase: every character lower-cased in place. */
  function Lower(s: string): (r: string)
    ensures |r| == |s|
    ensures forall i :: 0 <= i < |s| ==> r[i] == LowerChar(s[i])
  {
    if s == [] then [] else [LowerChar(s[0])] + Lower(s[1..])
  }

  /** Lower-casing a concatenation lower-cases each part. */
  lemma LowerAppend(a: string, b: string)
    ensures Lower(a + b) == Lower(a) + Lower(b)
  {
    assert forall i :: 0 <= i < |a + b| ==> Lower(a + b)[i] == (Lower(a) + Lower(b))[i];
  }

  /** Lower-casing twice is lower-casing once. */
  lemma LowerIdempotent(s: string)
    ensures Lower(Lower(s)) == Lower(s)
  {
    assert forall i :: 0 <= i < |s| ==> Lower(Lower(s))[i] == Lower(s)[i];
  }

  /** The characters trim removes: the WhiteSpace code points of ECMAScript
      (tab, vertical tab, form feed, space, no-break space, the byte-order mark
      and every other Unicode "Zs" space) and its LineTerminator code points. */
  predicate IsSpace(c: char) {
    c == '\t' || c == '\n' || c == '\U{000B}' || c == '\U{000C}' || c == '\r' || c == ' '
    || c == '\U{00A0}' || c == '\U{1680}' || ('\U{2000}' <= c <= '\U{200A}')
    || c == '\U{2028}' || c == '\U{2029}' || c == '\U{202F}' || c == '\U{205F}'
    || c == '\U{3000}' || c == '\U{FEFF}'
  }

  predicate AllSpace(s: string) {
    forall i :: 0 <= i < |s| ==> IsSpace(s[i])
  }

  /** Lower-casing leaves white space as it is. */
  lemma LowerKeepsSpace(w: string)
    requires AllSpace(w)
    ensures Lower(w) == w
  {
    assert forall i :: 0 <= i < |w| ==> Lower(w)[i] == w[i];
  }

  /** Drops the leading white space: the result is the suffix of `s` that starts
      at its first non-space character. */
  function TrimStart(s: string): (r: string)
    ensures |r| <= |s| && r == s[|s| - |r|..]
    ensures AllSpace(s[..|s| - |r|])
    ensures r != [] ==> !IsSpace(r[0])
    ensures r == [] <==> AllSpace(s)
  {
    if s != [] && IsSpace(s[0]) then TrimStart(s[1..]) else s
  }

  /** Drops the trailing white space: the result is the prefix of `s` that ends
      at its last non-space character. */
  function TrimEnd(s: string): (r: string)
    ensures |r| <= |s| && r == s[..|r|]
    ensures AllSpace(s[|r|..])
    ensures r != [] ==> !IsSpace(r[|r| - 1])
  {
    if s != [] && IsSpace(s[|s| - 1]) then TrimEnd(s[..|s| - 1]) else s
  }

  /** trim: both ends. */
  function Trim(s: string): (r: string)
  {
    TrimEnd(TrimStart(s))
  }

  /** What trim promises: the result is a slice of `s` with only white space cut
      off on either side, it neither starts nor ends with white space, and it is
      empty exactly when `s` is all white space. */
  lemma TrimSpec(s: string)
    ensures exists k :: 0 <= k <= |s| - |Trim(s)| && Trim(s) == s[k..k + |Trim(s)|]
                        && AllSpace(s[..k]) && AllSpace(s[k + |Trim(s)|..])
    ensures Trim(s) != [] ==> !IsSpace(Trim(s)[0]) && !IsSpace(Trim(s)[|Trim(s)| - 1])
    ensures Trim(s) == [] <==> AllSpace(s)
  {
    var k := TrimSlice(s);
    TrimEmpty(s);
  }

  /** Trim(s) is s[k..k + |Trim(s)|] with only white space on either side. */
  lemma TrimSlice(s: string) returns (k: int)
    ensures 0 <= k <= |s| - |Trim(s)| && Trim(s) == s[k..k + |Trim(s)|]
    ensures AllSpace(s[..k]) && AllSpace(s[k + |Trim(s)|..])
  {
    var t := TrimStart(s);
    var r := TrimEnd(t);
    k := |s| - |t|;
    assert t == s[k..];
    assert r == t[..|r|] == s[k..k + |r|];
    assert s[k + |r|..] == t[|r|..];
  }

  lemma TrimEmpty(s: string)
    ensures Trim(s) == [] <==> AllSpace(s)
  {
    var t := TrimStart(s);
    if t != [] {
      TrimEndKeepsNonSpace(t);
    }
  }

  /** A string that starts with a non-space does not trim to nothing at its end. */
  lemma {:induction false} TrimEndKeepsNonSpace(s: string)
    requires s != [] && !IsSpace(s[0])
    ensures TrimEnd(s) != []
  {
    if IsSpace(s[|s| - 1]) {
      assert |s| > 1;
      TrimEndKeepsNonSpace(s[..|s| - 1]);
    }
  }

  /** Leading white space is invisible to TrimStart. */
  lemma {:induction false} TrimStartSkipsSpace(w: string, x: string)
    requires AllSpace(w)
    ensures TrimStart(w + x) == TrimStart(x)
  {
    if w != [] {
      assert (w + x)[1..] == w[1..] + x;
      TrimStartSkipsSpace(w[1..], x);
    } else {
      assert w + x == x;
    }
  }

  /** Trailing white space is invisible to TrimEnd. */
  lemma {:induction false} TrimEndSkipsSpace(x: string, w: string)
    requires AllSpace(w)
    ensures TrimEnd(x + w) == TrimEnd(x)
  {
    if w != [] {
      var w' := w[..|w| - 1];
      assert (x + w)[..|x + w| - 1] == x + w';
      TrimEndSkipsSpace(x, w');
    } else {
      assert x + w == x;
    }
  }

  /** Appended white space survives TrimStart when `x` holds a non-space character. */
  lemma {:induction false} TrimStartKeepsTail(x: string, w: string)
    requires !AllSpace(x)
    ensures TrimStart(x + w) == TrimStart(x) + w
  {
    if IsSpace(x[0]) {
      assert (x + w)[1..] == x[1..] + w;
      TrimStartKeepsTail(x[1..], w);
    }
  }

  /** Padding a string with white space on either side does not change what it trims to. */
  lemma TrimIgnoresPadding(w1: string, x: string, w2: string)
    requires AllSpace(w1) && AllSpace(w2)
    ensures Trim(w1 + x + w2) == Trim(x)
  {
    assert w1 + x + w2 == w1 + (x + w2);
    TrimStartSkipsSpace(w1, x + w2);
    assert TrimStart(w1 + x + w2) == TrimStart(x + w2);
    if AllSpace(x) {
      assert AllSpace(x + w2);
    } else {
      TrimStartKeepsTail(x, w2);
      TrimEndSkipsSpace(TrimStart(x), w2);
    }
  }

  /** `needle` occurs in `hay` starting at position `i`. */
  predicate OccursAt(hay: string, needle: string, i: int) {
    0 <= i && i + |needle| <= |hay| && hay[i..i + |needle|] == needle
  }

  /** includes: `needle` occurs in `hay` at some position. */
  function Contains(hay: string, needle: string): (r: bool)
    ensures |needle| > |hay| ==> !r
    decreases |hay|
  {
    if |needle| > |hay| then false
    else if hay[..|needle|] == needle then true
    else hay != [] && Contains(hay[1..], needle)
  }

  /** Contains is sound: a `true` answer has a witness position. */
  lemma {:induction false} ContainsHasWitness(hay: string, needle: string)
    requires Contains(hay, needle)
    ensures exists i :: OccursAt(hay, needle, i)
  {
    if hay[..|needle|] == needle {
      assert OccursAt(hay, needle, 0);
    } else {
      ContainsHasWitness(hay[1..], needle);
      var j :| OccursAt(hay[1..], needle, j);
      assert hay[j + 1..j + 1 + |needle|] == hay[1..][j..j + |needle|];
      assert OccursAt(hay, needle, j + 1);
    }
  }

  /** Contains is complete: every occurrence is found. */
  lemma {:induction false} ContainsAt(hay: string, needle: string, i: int)
    requires OccursAt(hay, needle, i)
    ensures Contains(hay, needle)
  {
    if i > 0 && hay[..|needle|] != needle {
      assert hay[1..][i - 1..i - 1 + |needle|] == hay[i..i + |needle|];
      assert OccursAt(hay[1..], needle, i - 1);
      ContainsAt(hay[1..], needle, i - 1);
    }
  }

  /** With no occurrence anywhere, Contains answers false: the contrapositive
      of ContainsHasWitness. */
  lemma ContainsOnlyOccurrences(hay: string, needle: string)
    requires forall i :: !OccursAt(hay, needle, i)
    ensures !Contains(hay, needle)
  {
    if Contains(hay, needle) {
      ContainsHasWitness(hay, needle);
    }
  }

  /** A needle with a character the haystack lacks occurs nowhere in it. */
  lemma MissingCharRulesOut(hay: string, needle: string, j: int)
    requires 0 <= j < |needle| && needle[j] !in hay
    ensures forall i :: !OccursAt(hay, needle, i)
  {
    forall i ensures !OccursAt(hay, needle, i) {
      if 0 <= i && i + |needle| <= |hay| {
        assert hay[i..i + |needle|][j] == hay[i + j];
        assert hay[i + j] in hay;
      }
    }
  }

  /** A string that neither starts nor ends with white space is its own trim. */
  lemma TrimUnpadded(s: string)
    requires s != [] && !IsSpace(s[0]) && !IsSpace(s[|s| - 1])
    ensures Trim(s) == s
  {
  }

  /** The characters that lower-case to a given lower-case letter: the letter
      itself and its upper-case form. */
  lemma LowerCharHits(x: char, c: char)
    requires 'a' <= c <= 'z'
    ensures LowerChar(x) == c <==> x == c || x == (c as int - 32) as char
  {
  }

  /** A lower-case letter that is absent from `s` in both cases is absent from Lower(s). */
  lemma LowerOmits(s: string, c: char)
    requires 'a' <= c <= 'z' && c !in s && (c as int - 32) as char !in s
    ensures c !in Lower(s)
  {
    forall i | 0 <= i < |s| ensures Lower(s)[i] != c {
      assert s[i] in s;
    }
  }

  /** `needle` does not occur in the lower-cased `k` when one of its letters,
      in either case, is absent from `k`. */
  lemma MissingLetter(k: string, needle: string, j: int, c: char)
    requires 0 <= j < |needle| && needle[j] == c && 'a' <= c <= 'z'
    requires c !in k && (c as int - 32) as char !in k
    ensures !Contains(Lower(k), needle)
  {
    LowerOmits(k, c);
    MissingCharRulesOut(Lower(k), needle, j);
    ContainsOnlyOccurrences(Lower(k), needle);
  }

  /** `needle` does not occur in the lower-cased `k` when, for some split point
      `m`, an earlier letter of it is absent (in either case) before `m` and a
      later one is absent from `m` on. */
  lemma SplitLetters(k: string, m: int, needle: string, j1: int, c1: char, j2: int, c2: char)
    requires 0 <= m <= |k| && 0 <= j1 < j2 < |needle|
    requires needle[j1] == c1 && 'a' <= c1 <= 'z' && needle[j2] == c2 && 'a' <= c2 <= 'z'
    requires c1 !in k[..m] && (c1 as int - 32) as char !in k[..m]
    requires c2 !in k[m..] && (c2 as int - 32) as char !in k[m..]
    ensures !Contains(Lower(k), needle)
  {
    forall i ensures !OccursAt(Lower(k), needle, i) {
      SplitLettersAt(k, m, needle, j1, c1, j2, c2, i);
    }
    ContainsOnlyOccurrences(Lower(k), needle);
  }

  lemma SplitLettersAt(k: string, m: int, needle: string, j1: int, c1: char, j2: int, c2: char, i: int)
    requires 0 <= m <= |k| && 0 <= j1 < j2 < |needle|
    requires needle[j1] == c1 && 'a' <= c1 <= 'z' && needle[j2] == c2 && 'a' <= c2 <= 'z'
    requires c1 !in k[..m] && (c1 as int - 32) as char !in k[..m]
    requires c2 !in k[m..] && (c2 as int - 32) as char !in k[m..]
    ensures !OccursAt(Lower(k), needle, i)
  {
    if 0 <= i && i + |needle| <= |k| {
      var h := Lower(k);
      var w := h[i..i + |needle|];
      if i + j1 < m {
        var x := k[i + j1];
        assert x == k[..m][i + j1] && x in k[..m];
        LowerCharHits(x, c1);
        assert w[j1] == h[i + j1] == LowerChar(x);
      } else {
        var x := k[i + j2];
        assert x == k[m..][i + j2 - m] && x in k[m..];
        LowerCharHits(x, c2);
        assert w[j2] == h[i + j2] == LowerChar(x);
      }
    }
  }

  /** Every character of an occurring needle occurs in the haystack. */
  lemma ContainsNeedsChar(hay: string, needle: string, j: int)
    requires Contains(hay, needle) && 0 <= j < |needle|
    ensures needle[j] in hay
  {
    ContainsHasWitness(hay, needle);
    var i :| OccursAt(hay, needle, i);
    assert hay[i + j] == hay[i..i + |needle|][j];
  }

  /** The empty string occurs in every string. */
  lemma ContainsEmpty(hay: string)
    ensures Contains(hay, [])
  {
    assert hay[..0] == [];
  }
}
