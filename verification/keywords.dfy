/**
  The keyword tokeniser: the sanitised question split on whitespace,
  keeping the tokens of at least a minimum length.
 */
module Keywords {
  import opened Chars
  import opened Seqs
  import opened Sanitizer

  /** The default minimum token length of the tokeniser. */
  const DefaultMinLen: int := 2

  /**
    Python's `str.split()` with no argument: the maximal runs of
    non-whitespace characters, in order; whitespace runs, including those at
    either end, yield no empty tokens.
   */
  function Words(s: string): (r: seq<string>)
    ensures forall i :: 0 <= i < |r| ==> |r[i]| > 0
    ensures forall i, j :: 0 <= i < |r| && 0 <= j < |r[i]| ==> IsWordChar(r[i][j])
    ensures |s| > 0 && IsWordChar(s[0]) ==> |r| > 0 && r[0][0] == s[0]
  {
    if |s| == 0 then []
    else
      var rest := Words(s[1..]);
      if IsWhitespace(s[0]) then rest
      else if |s| > 1 && IsWordChar(s[1]) then [[s[0]] + rest[0]] + rest[1..]
      else [[s[0]]] + rest
  }

  /** A leading run of whitespace produces no token: splitting resumes after it. */
  lemma {:induction false} WordsSkipRun(s: string, k: nat)
    requires k <= |s|
    requires forall i :: 0 <= i < k ==> IsWhitespace(s[i])
    ensures Words(s) == Words(s[k..])
  {
    if k > 0 {
      WordsSkipRun(s[1..], k - 1);
      assert s[1..][k - 1..] == s[k..];
    }
  }

  /** A leading maximal run of non-whitespace is the first token, whole. */
  lemma {:induction false} WordsTakeRun(s: string, k: nat)
    requires 0 < k <= |s|
    requires forall i :: 0 <= i < k ==> IsWordChar(s[i])
    requires k == |s| || IsWhitespace(s[k])
    ensures Words(s) == [s[..k]] + Words(s[k..])
  {
    if k == 1 {
      WordsEndOfRun(s);
      assert s[..1] == [s[0]];
    } else {
      var t := s[1..];
      WordsTakeRun(t, k - 1);
      WordsInsideRun(s);
      var w := Words(t);
      assert w[0] == t[..k - 1] && w[1..] == Words(t[k - 1..]);
      assert t[k - 1..] == s[k..];
      assert [s[0]] + t[..k - 1] == s[..k];
    }
  }

  /** A token character followed by whitespace or the end is a one-character token. */
  lemma WordsEndOfRun(s: string)
    requires |s| > 0 && IsWordChar(s[0]) && (|s| == 1 || IsWhitespace(s[1]))
    ensures Words(s) == [[s[0]]] + Words(s[1..])
  {
  }

  /** A token character followed by another joins the token that follows. */
  lemma WordsInsideRun(s: string)
    requires |s| > 1 && IsWordChar(s[0]) && IsWordChar(s[1])
    ensures |Words(s[1..])| > 0
    ensures Words(s) == [[s[0]] + Words(s[1..])[0]] + Words(s[1..])[1..]
  {
  }

  /** The tokens, concatenated, are exactly the non-whitespace characters, in order. */
  lemma {:induction false} WordsConcat(s: string)
    ensures Concat(Words(s)) == Filter(s, IsWordChar)
  {
    if |s| > 0 {
      var rest := Words(s[1..]);
      WordsConcat(s[1..]);
      if IsWhitespace(s[0]) {
        assert Filter(s, IsWordChar) == Filter(s[1..], IsWordChar);
      } else if |s| > 1 && IsWordChar(s[1]) {
        var r := [[s[0]] + rest[0]] + rest[1..];
        assert r[1..] == rest[1..];
        assert Concat(r) == [s[0]] + rest[0] + Concat(rest[1..]);
        assert Concat(rest) == rest[0] + Concat(rest[1..]);
      } else {
        var r := [[s[0]]] + rest;
        assert r[1..] == rest;
      }
    }
  }

  /** Trailing whitespace produces no token. */
  lemma {:induction false} WordsOfWhitespaceTail(a: string, b: string)
    requires forall i :: 0 <= i < |b| ==> IsWhitespace(b[i])
    ensures Words(a + b) == Words(a)
  {
    if |a| == 0 {
      assert a + b == b;
      WordsSkipRun(b, |b|);
      assert b[|b|..] == [];
    } else {
      assert (a + b)[1..] == a[1..] + b;
      WordsOfWhitespaceTail(a[1..], b);
      if |a| == 1 && |b| > 0 {
        assert (a + b)[1] == b[0];
      } else if |a| > 1 {
        assert (a + b)[1] == a[1];
      }
    }
  }

  /** Stripping leading whitespace does not change the tokens. */
  lemma WordsOfTrimStart(s: string)
    ensures Words(TrimStart(s)) == Words(s)
  {
    WordsSkipRun(s, |s| - |TrimStart(s)|);
  }

  /** Stripping trailing whitespace does not change the tokens. */
  lemma WordsOfTrimEnd(s: string)
    ensures Words(TrimEnd(s)) == Words(s)
  {
    var t := TrimEnd(s);
    assert s == t + s[|t|..];
    WordsOfWhitespaceTail(t, s[|t|..]);
  }

  /** Collapsing whitespace runs to single spaces does not change the tokens. */
  lemma {:induction false} WordsOfCollapse(s: string)
    ensures Words(CollapseWhitespace(s)) == Words(s)
    decreases |s|
  {
    assert IsWhitespace(' ');
    if |s| > 0 {
      var c := CollapseWhitespace(s);
      if IsWhitespace(s[0]) {
        var t := TrimStart(s);
        WordsOfCollapse(t);
        WordsOfTrimStart(s);
        assert c == [' '] + CollapseWhitespace(t);
        assert c[1..] == CollapseWhitespace(t);
      } else {
        var u := CollapseWhitespace(s[1..]);
        WordsOfCollapse(s[1..]);
        assert c == [s[0]] + u;
        assert c[1..] == u;
        if |s| == 1 {
          assert u == [];
        } else {
          assert IsWordChar(u[0]) == IsWordChar(s[1]);
        }
      }
    }
  }

  /**
    Text whose only whitespace is single spaces, with none at either end:
    the shape `" ".join(...)` of non-empty tokens produces.
   */
  predicate IsSingleSpaced(t: string) {
    LoneSpaces(t) && (|t| > 0 ==> IsWordChar(t[0]) && IsWordChar(t[|t| - 1]))
  }

  /** The only whitespace is plain spaces, never two in a row. */
  predicate LoneSpaces(t: string) {
    && (forall i :: 0 <= i < |t| ==> t[i] == ' ' || IsWordChar(t[i]))
    && (forall i :: 0 < i < |t| ==> !(IsWhitespace(t[i - 1]) && IsWhitespace(t[i])))
  }

  lemma LoneSpacesSlice(t: string, a: nat, b: nat)
    requires LoneSpaces(t) && a <= b <= |t|
    ensures LoneSpaces(t[a..b])
  {
    var u := t[a..b];
    assert forall i :: 0 <= i < |u| ==> u[i] == t[a + i];
  }

  /** Single-spaced text is its tokens joined by single spaces. */
  lemma {:induction false} JoinWordsOfSingleSpaced(t: string)
    requires IsSingleSpaced(t)
    ensures Join(Words(t), " ") == t
    decreases |t|
  {
    if |t| > 1 {
      if IsWhitespace(t[1]) {
        assert IsWordChar(t[2]) by {
          assert IsWordChar(t[|t| - 1]);
          assert !(IsWhitespace(t[1]) && IsWhitespace(t[2]));
        }
        SingleSpacedSuffix(t, 2);
        JoinWordsOfSingleSpaced(t[2..]);
        JoinAtSpace(t);
      } else {
        SingleSpacedSuffix(t, 1);
        JoinWordsOfSingleSpaced(t[1..]);
        JoinInsideWord(t);
      }
    } else if |t| == 1 {
      assert Words(t) == [[t[0]]];
    }
  }

  /** The step of the join at a space: the first token is one character long. */
  lemma JoinAtSpace(t: string)
    requires |t| > 2 && IsWordChar(t[0]) && t[1] == ' ' && IsWordChar(t[2])
    requires Join(Words(t[2..]), " ") == t[2..]
    ensures Join(Words(t), " ") == t
  {
    var u := t[2..];
    assert t[1..][1..] == u;
    assert Words(t[1..]) == Words(u);
    JoinCons([t[0]], Words(u), " ");
    assert t == [t[0]] + " " + u;
  }

  /** The step of the join inside a token: the first character joins the next token. */
  lemma JoinInsideWord(t: string)
    requires |t| > 1 && IsWordChar(t[0]) && IsWordChar(t[1])
    requires Join(Words(t[1..]), " ") == t[1..]
    ensures Join(Words(t), " ") == t
  {
    JoinPrependHead(Words(t[1..]), t[0], " ");
    assert t == [t[0]] + t[1..];
  }

  /** A suffix of single-spaced text that starts with a token character is single-spaced. */
  lemma SingleSpacedSuffix(t: string, k: nat)
    requires IsSingleSpaced(t) && k < |t| && IsWordChar(t[k])
    ensures IsSingleSpaced(t[k..])
  {
    LoneSpacesSlice(t, k, |t|);
    assert t[k..|t|] == t[k..];
  }

  /**
    `re.sub(r"\s+", " ", s).strip()` is `" ".join(s.split())`: after the
    collapse and the strip, what is left is the tokens of `s` separated by
    single spaces.
   */
  lemma StripCollapseJoinsWords(s: string)
    ensures Strip(CollapseWhitespace(s)) == Join(Words(s), " ")
  {
    var c := CollapseWhitespace(s);
    StripIsSingleSpaced(c);
    JoinWordsOfSingleSpaced(Strip(c));
    WordsOfTrimEnd(TrimStart(c));
    WordsOfTrimStart(c);
    WordsOfCollapse(s);
  }

  /**
    `sanitize_for_drive` is `" ".join(...split())` of the masked question:
    every whitespace run of the masked text, and only those, separates two
    tokens by one space.
   */
  lemma SanitizeJoinsMaskedWords(q: string)
    ensures Sanitize(q) == Join(Words(MaskNonWord(q)), " ")
  {
    ReplaceQuotesRedundant(q);
    StripCollapseJoinsWords(MaskNonWord(q));
  }

  /** The tokens of the sanitised question are the tokens of the masked question. */
  lemma WordsOfSanitized(q: string)
    ensures Words(Sanitize(q)) == Words(MaskNonWord(q))
  {
    var m := MaskNonWord(q);
    var c := CollapseWhitespace(m);
    ReplaceQuotesRedundant(q);
    WordsOfTrimEnd(TrimStart(c));
    WordsOfTrimStart(c);
    WordsOfCollapse(m);
  }

  /** Stripping text whose whitespace is lone spaces leaves it single-spaced. */
  lemma StripIsSingleSpaced(c: string)
    requires LoneSpaces(c)
    ensures IsSingleSpaced(Strip(c))
  {
    StripIsSlice(c);
    StripEnds(c);
    var off := |c| - |TrimStart(c)|;
    LoneSpacesSlice(c, off, off + |Strip(c)|);
  }




  /** The tokens of `words` that are at least `minLen` long, in order. */
  function LongEnough(words: seq<string>, minLen: int): seq<string> {
    Filter(words, (w: string) => |w| >= minLen)
  }

  /** `keywords_from_query(q, min_len)`. */
  function KeywordsFromQuery(q: string, minLen: int): (r: seq<string>)
    ensures forall i :: 0 <= i < |r| ==> |r[i]| >= minLen && |r[i]| > 0
    ensures forall i, j :: 0 <= i < |r| && 0 <= j < |r[i]| ==> IsAsciiAlnum(r[i][j])
    ensures forall w :: w in Words(Sanitize(q)) && |w| >= minLen ==> w in r
  {
    var s := Sanitize(q);
    WordsOfSpacedAlnum(s);
    var ws := Words(s);
    var r := LongEnough(ws, minLen);
    forall i | 0 <= i < |r|
      ensures |r[i]| >= minLen && |r[i]| > 0
      ensures forall j :: 0 <= j < |r[i]| ==> IsAsciiAlnum(r[i][j])
    {
      assert r[i] in ws;
    }
    r
  }

  /** The tokens of a string of letters, digits and spaces are made of letters and digits. */
  lemma {:induction false} WordsOfSpacedAlnum(s: string)
    requires IsSpacedAlnum(s)
    ensures forall w, j :: w in Words(s) && 0 <= j < |w| ==> IsAsciiAlnum(w[j])
  {
    if |s| > 0 {
      WordsOfSpacedAlnum(s[1..]);
      var rest := Words(s[1..]);
      if !IsWhitespace(s[0]) {
        assert s[0] != ' ' && IsAsciiAlnum(s[0]);
        if |s| > 1 && IsWordChar(s[1]) {
          assert rest[0] in rest;
          forall w | w in rest[1..] ensures w in rest { }
        }
      }
    }
  }


  /**
    On letters, digits and single spaces with no trailing space, splitting on
    the space character and splitting on whitespace agree, except for the
    empty piece a leading space produces.
   */
  lemma {:induction false} SplitOnSpaceOfSpaced(s: string)
    requires |s| > 0 && IsSpacedAlnum(s) && NoDoubleSpace(s) && s[|s| - 1] != ' '
    ensures s[0] != ' ' ==> SplitOn(s, ' ') == Words(s)
    ensures s[0] == ' ' ==> SplitOn(s, ' ') == [[]] + Words(s)
  {
    assert IsWhitespace(' ');
    if |s| == 1 {
      AlnumIsWordChar(s[0]);
      assert s[1..] == [] && SplitOn(s[1..], ' ') == [[]];
      assert [s[0]] + [] == [s[0]];
      assert SplitOn(s, ' ') == [[s[0]]];
      assert Words(s) == [[s[0]]];
    } else {
      var t := s[1..];
      SliceKeepsShape(s, 1, |s|);
      SplitOnSpaceOfSpaced(t);
      var w := Words(t);
      if s[0] == ' ' {
        assert SplitOn(s, ' ') == [[]] + SplitOn(t, ' ');
        assert Words(s) == w;
      } else {
        AlnumIsWordChar(s[0]);
        if t[0] == ' ' {
          assert SplitOn(t, ' ') == [[]] + w;
          assert [s[0]] + [] == [s[0]];
          assert SplitOn(s, ' ') == [[s[0]]] + w;
          assert Words(s) == [[s[0]]] + w;
        } else {
          AlnumIsWordChar(t[0]);
          assert SplitOn(t, ' ') == w;
          assert Words(s) == [[s[0]] + w[0]] + w[1..];
        }
      }
    }
  }

  /**
    On a sanitised string, Python's `s.split()` is `s.split(' ')`, except
    that the empty string splits into no tokens rather than one empty token.
   */
  lemma WordsOfClean(s: string)
    requires IsClean(s)
    ensures s == [] ==> Words(s) == []
    ensures s != [] ==> Words(s) == SplitOn(s, ' ')
  {
    if s != [] {
      SplitOnSpaceOfSpaced(s);
    }
  }

  /**
    The keywords are exactly the pieces of the sanitised question split on
    single spaces that are at least `minLen` long: none shorter is emitted,
    none long enough is dropped. The one exception to comparing with
    `split(' ')` is the empty question under a non-positive minimum, where
    `split(' ')` would give one empty piece.
   */
  lemma KeywordsAreLongSpacePieces(q: string, minLen: int)
    requires Sanitize(q) != [] || minLen >= 1
    ensures KeywordsFromQuery(q, minLen) == LongEnough(SplitOn(Sanitize(q), ' '), minLen)
  {
    var s := Sanitize(q);
    WordsOfClean(s);
    if s == [] {
      assert SplitOn(s, ' ') == [[]];
      assert LongEnough([[]], minLen) == [];
    }
  }

  /** Joining the tokens of a sanitised question with spaces rebuilds it. */
  lemma JoinWordsOfSanitized(q: string)
    ensures Join(Words(Sanitize(q)), " ") == Sanitize(q)
  {
    var s := Sanitize(q);
    WordsOfClean(s);
    if s != [] {
      JoinSplitOn(s, ' ');
    }
  }

  /** The keywords contain no quote, so each sits safely inside a quoted filter literal. */
  lemma KeywordsQuoteFree(q: string, minLen: int)
    ensures forall k :: k in KeywordsFromQuery(q, minLen) ==> '\'' !in k && '\\' !in k
  {
    var ks := KeywordsFromQuery(q, minLen);
    forall k | k in ks
      ensures '\'' !in k && '\\' !in k
    {
      var i :| 0 <= i < |ks| && ks[i] == k;
      AlnumQuoteFree(k);
    }
  }

  lemma AlnumQuoteFree(k: string)
    requires forall j :: 0 <= j < |k| ==> IsAsciiAlnum(k[j])
    ensures '\'' !in k && '\\' !in k
  {
  }

  /**
    The tokens lose no content: concatenated, the tokens of the sanitised
    question are exactly the question's ASCII letters and digits, in order.
   */
  lemma WordsKeepAlnum(q: string)
    ensures Concat(Words(Sanitize(q))) == Filter(q, IsAsciiAlnum)
  {
    var s := Sanitize(q);
    var ws := Words(s);
    JoinWordsOfSanitized(q);
    forall i | 0 <= i < |ws|
      ensures ' ' !in ws[i]
    {
      assert IsWhitespace(' ');
    }
    FilterJoin(ws, ' ', IsNotSpace);
    SanitizeKeepsAlnum(q);
  }
}
