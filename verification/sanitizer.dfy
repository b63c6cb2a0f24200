/**
  The query sanitiser: a free-text question becomes a string of ASCII
  letters and digits separated by single spaces, safe to quote inside a
  Drive search filter.
 */
module Sanitizer {
  import opened Chars
  import opened Seqs

  /** The characters the first replacement stage turns into spaces. */
  predicate IsQuote(c: char) {
    c == '\'' || c == '"' || c == '\\'
  }

  /** Stage 1: quote, double quote and backslash become spaces. */
  function ReplaceQuotes(s: string): string {
    seq(|s|, i requires 0 <= i < |s| => if IsQuote(s[i]) then ' ' else s[i])
  }

  /** Stage 2: every character outside `[0-9A-Za-z\s]` becomes a space. */
  function MaskNonWord(s: string): string {
    seq(|s|, i requires 0 <= i < |s| => if IsAsciiAlnum(s[i]) || IsWhitespace(s[i]) then s[i] else ' ')
  }

  /** Python's `str.lstrip()`: the suffix left after dropping leading whitespace. */
  function TrimStart(s: string): (r: string)
    ensures |r| <= |s| && r == s[|s| - |r|..]
    ensures forall i :: 0 <= i < |s| - |r| ==> IsWhitespace(s[i])
    ensures |r| > 0 ==> !IsWhitespace(r[0])
    ensures |s| > 0 && IsWhitespace(s[0]) ==> |r| < |s|
  {
    if |s| > 0 && IsWhitespace(s[0]) then
      var r := TrimStart(s[1..]);
      assert s[1..][|s| - 1 - |r|..] == s[|s| - |r|..];
      assert forall i :: 1 <= i < |s| - |r| ==> s[i] == s[1..][i - 1];
      r
    else s
  }

  /** Python's `str.rstrip()`: the prefix left after dropping trailing whitespace. */
  function TrimEnd(s: string): (r: string)
    ensures |r| <= |s| && r == s[..|r|]
    ensures forall i :: |r| <= i < |s| ==> IsWhitespace(s[i])
    ensures |r| > 0 ==> !IsWhitespace(r[|r| - 1])
  {
    if |s| > 0 && IsWhitespace(s[|s| - 1]) then TrimEnd(s[..|s| - 1]) else s
  }

  /** Python's `str.strip()`. */
  function Strip(s: string): string {
    TrimEnd(TrimStart(s))
  }

  /**
    `re.sub(r"\s+", " ", s)`: every maximal run of whitespace becomes one
    space; other characters are kept as they are.
   */
  function CollapseWhitespace(s: string): (r: string)
    ensures |s| > 0 ==> |r| > 0 && r[0] == (if IsWhitespace(s[0]) then ' ' else s[0])
    ensures forall i :: 0 <= i < |r| ==> r[i] == ' ' || (r[i] in s && !IsWhitespace(r[i]))
    ensures forall i :: 0 < i < |r| ==> !(IsWhitespace(r[i - 1]) && IsWhitespace(r[i]))
    decreases |s|
  {
    if |s| == 0 then []
    else if IsWhitespace(s[0]) then [' '] + CollapseWhitespace(TrimStart(s))
    else [s[0]] + CollapseWhitespace(s[1..])
  }

  /** The collapsed text ends in whitespace exactly when the input does. */
  lemma {:induction false} CollapseKeepsLastWhitespace(s: string)
    requires |s| > 0
    ensures IsWhitespace(Last(CollapseWhitespace(s))) <==> IsWhitespace(Last(s))
    decreases |s|
  {
    var r := CollapseWhitespace(s);
    if IsWhitespace(s[0]) {
      var t := TrimStart(s);
      if |t| == 0 {
        assert IsWhitespace(s[|s| - 1]);
        assert r == [' '];
        assert IsWhitespace(' ');
      } else {
        CollapseKeepsLastWhitespace(t);
        assert Last(t) == Last(s);
      }
    } else if |s| > 1 {
      CollapseKeepsLastWhitespace(s[1..]);
    }
  }

  /** The last character of a non-empty string. */
  function Last(s: string): char
    requires |s| > 0
  {
    s[|s| - 1]
  }

  /** `sanitize_for_drive`: the three stages of the source, then a strip. */
  function Sanitize(q: string): (r: string)
    ensures IsClean(r)
  {
    var masked := MaskNonWord(ReplaceQuotes(q));
    MaskedChars(ReplaceQuotes(q));
    CollapseOfMasked(masked);
    StripOfSpaced(CollapseWhitespace(masked));
    Strip(CollapseWhitespace(masked))
  }

  /** Only ASCII letters, digits and plain spaces. */
  predicate IsSpacedAlnum(s: string) {
    forall i :: 0 <= i < |s| ==> IsAsciiAlnum(s[i]) || s[i] == ' '
  }

  predicate NoDoubleSpace(s: string) {
    forall i :: 0 < i < |s| ==> !(s[i - 1] == ' ' && s[i] == ' ')
  }

  /**
    The shape of a sanitised string: only ASCII letters, digits and plain
    spaces, no space at either end, never two spaces in a row.
   */
  predicate IsClean(s: string) {
    && IsSpacedAlnum(s)
    && NoDoubleSpace(s)
    && (|s| > 0 ==> s[0] != ' ' && s[|s| - 1] != ' ')
  }

  lemma MaskedChars(s: string)
    ensures forall i :: 0 <= i < |s| ==> IsAsciiAlnum(MaskNonWord(s)[i]) || IsWhitespace(MaskNonWord(s)[i])
  {
    assert IsWhitespace(' ');
  }

  lemma CollapseOfMasked(s: string)
    requires forall i :: 0 <= i < |s| ==> IsAsciiAlnum(s[i]) || IsWhitespace(s[i])
    ensures IsSpacedAlnum(CollapseWhitespace(s)) && NoDoubleSpace(CollapseWhitespace(s))
  {
    var r := CollapseWhitespace(s);
    forall i | 0 <= i < |r|
      ensures IsAsciiAlnum(r[i]) || r[i] == ' '
    {
      if r[i] != ' ' {
        var j :| 0 <= j < |s| && s[j] == r[i];
      }
    }
  }

  /** Stripping a string of letters, digits and single spaces leaves a clean string. */
  lemma StripOfSpaced(c: string)
    requires IsSpacedAlnum(c) && NoDoubleSpace(c)
    ensures IsClean(Strip(c))
  {
    StripIsSlice(c);
    StripEnds(c);
    var off := |c| - |TrimStart(c)|;
    SliceKeepsShape(c, off, off + |Strip(c)|);
    assert IsWhitespace(' ');
  }

  /** The stripped text is a slice of the input, starting where the leading whitespace ends. */
  lemma StripIsSlice(c: string)
    ensures |c| - |TrimStart(c)| + |Strip(c)| <= |c|
    ensures Strip(c) == c[|c| - |TrimStart(c)|..|c| - |TrimStart(c)| + |Strip(c)|]
  {
    var a := TrimStart(c);
    var t := TrimEnd(a);
    assert a == c[|c| - |a|..];
    assert t == a[..|t|];
  }

  /** The stripped text neither starts nor ends with whitespace. */
  lemma StripEnds(c: string)
    ensures |Strip(c)| > 0 ==> !IsWhitespace(Strip(c)[0]) && !IsWhitespace(Strip(c)[|Strip(c)| - 1])
  {
    var a := TrimStart(c);
    var t := TrimEnd(a);
    if |t| > 0 {
      assert t[0] == a[0];
    }
  }



  lemma SliceKeepsShape(s: string, a: nat, b: nat)
    requires a <= b <= |s|
    requires IsSpacedAlnum(s) && NoDoubleSpace(s)
    ensures IsSpacedAlnum(s[a..b]) && NoDoubleSpace(s[a..b])
  {
    var t := s[a..b];
    assert forall i :: 0 <= i < |t| ==> t[i] == s[a + i];
  }

  /** Dropping leading whitespace keeps every non-whitespace character. */
  lemma TrimStartKeepsWords(s: string)
    ensures Filter(TrimStart(s), IsWordChar) == Filter(s, IsWordChar)
  {
    var t := TrimStart(s);
    var k := |s| - |t|;
    assert s == s[..k] + t;
    FilterConcat(s[..k], t, IsWordChar);
    FilterNone(s[..k], IsWordChar);
  }

  /** Dropping trailing whitespace keeps every non-whitespace character. */
  lemma TrimEndKeepsWords(s: string)
    ensures Filter(TrimEnd(s), IsWordChar) == Filter(s, IsWordChar)
  {
    var t := TrimEnd(s);
    assert s == t + s[|t|..];
    FilterConcat(t, s[|t|..], IsWordChar);
    FilterNone(s[|t|..], IsWordChar);
  }

  /** Collapsing whitespace runs keeps every other character, in order. */
  lemma {:induction false} CollapseKeepsWords(s: string)
    ensures Filter(CollapseWhitespace(s), IsWordChar) == Filter(s, IsWordChar)
    decreases |s|
  {
    if |s| > 0 {
      if IsWhitespace(s[0]) {
        var t := TrimStart(s);
        CollapseKeepsWords(t);
        TrimStartKeepsWords(s);
        assert ([' '] + CollapseWhitespace(t))[1..] == CollapseWhitespace(t);
      } else {
        CollapseKeepsWords(s[1..]);
        assert ([s[0]] + CollapseWhitespace(s[1..]))[1..] == CollapseWhitespace(s[1..]);
      }
    }
  }

  /**
    The sanitiser loses no content: deleting the spaces from its output
    gives exactly the ASCII letters and digits of the input, in order.
   */
  lemma SanitizeKeepsAlnum(q: string)
    ensures Filter(Sanitize(q), IsNotSpace) == Filter(q, IsAsciiAlnum)
  {
    var masked := MaskNonWord(ReplaceQuotes(q));
    var collapsed := CollapseWhitespace(masked);
    var r := Sanitize(q);
    calc {
      Filter(q, IsAsciiAlnum);
      { QuotesKeepAlnum(q); }
      Filter(ReplaceQuotes(q), IsAsciiAlnum);
      { MaskKeepsAlnum(ReplaceQuotes(q)); }
      Filter(masked, IsWordChar);
      { CollapseKeepsWords(masked); }
      Filter(collapsed, IsWordChar);
      { TrimStartKeepsWords(collapsed); TrimEndKeepsWords(TrimStart(collapsed)); }
      Filter(r, IsWordChar);
      { SpacesAreTheOnlyWhitespace(r); }
      Filter(r, IsNotSpace);
    }
  }

  lemma QuotesKeepAlnum(q: string)
    ensures Filter(ReplaceQuotes(q), IsAsciiAlnum) == Filter(q, IsAsciiAlnum)
  {
    FilterPointwise(q, IsAsciiAlnum, ReplaceQuotes(q), IsAsciiAlnum);
  }

  /** In a string of letters, digits and spaces, dropping spaces is dropping whitespace. */
  lemma SpacesAreTheOnlyWhitespace(r: string)
    requires IsSpacedAlnum(r)
    ensures Filter(r, IsWordChar) == Filter(r, IsNotSpace)
  {
    forall i | 0 <= i < |r|
      ensures IsNotSpace(r[i]) == IsWordChar(r[i])
    {
      if r[i] != ' ' {
        AlnumIsWordChar(r[i]);
      }
    }
    FilterPointwise(r, IsWordChar, r, IsNotSpace);
  }

  /** The mask keeps exactly the ASCII letters and digits as non-whitespace characters. */
  lemma MaskKeepsAlnum(s: string)
    ensures Filter(MaskNonWord(s), IsWordChar) == Filter(s, IsAsciiAlnum)
  {
    var m := MaskNonWord(s);
    forall i | 0 <= i < |s|
      ensures IsAsciiAlnum(s[i]) == IsWordChar(m[i])
    {
      if IsAsciiAlnum(s[i]) {
        AlnumIsWordChar(s[i]);
      } else {
        assert IsWhitespace(' ');
      }
    }
    FilterPointwise(s, IsAsciiAlnum, m, IsWordChar);
  }

  /** The quote stage is subsumed by the mask stage: quotes are not word characters. */
  lemma ReplaceQuotesRedundant(q: string)
    ensures MaskNonWord(ReplaceQuotes(q)) == MaskNonWord(q)
  {
  }

  /** On a string with only letters, digits and single spaces, collapsing changes nothing. */
  lemma {:induction false} CollapseOfSpaced(s: string)
    requires IsSpacedAlnum(s) && NoDoubleSpace(s)
    ensures CollapseWhitespace(s) == s
  {
    if |s| > 0 {
      SliceKeepsShape(s, 1, |s|);
      CollapseOfSpaced(s[1..]);
      if s[0] == ' ' {
        assert IsWhitespace(' ');
        if |s| > 1 {
          AlnumIsWordChar(s[1]);
        }
        assert TrimStart(s[1..]) == s[1..];
        assert TrimStart(s) == s[1..];
      } else {
        AlnumIsWordChar(s[0]);
      }
    }
  }

  /** A clean string is its own sanitisation. */
  lemma SanitizeFixesClean(s: string)
    requires IsClean(s)
    ensures Sanitize(s) == s
  {
    assert ReplaceQuotes(s) == s;
    assert MaskNonWord(s) == s;
    CollapseOfSpaced(s);
    assert |s| > 0 ==> IsWordChar(s[0]) && IsWordChar(s[|s| - 1]);
    assert TrimStart(s) == s;
    assert TrimEnd(s) == s;
  }

  /** Sanitising twice is sanitising once. */
  lemma SanitizeIdempotent(q: string)
    ensures Sanitize(Sanitize(q)) == Sanitize(q)
  {
    SanitizeFixesClean(Sanitize(q));
  }

  /** The strings the sanitiser leaves unchanged are exactly the clean ones. */
  lemma SanitizeFixedPoints(s: string)
    ensures Sanitize(s) == s <==> IsClean(s)
  {
    if IsClean(s) {
      SanitizeFixesClean(s);
    }
  }
}
