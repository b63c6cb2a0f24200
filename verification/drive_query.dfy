/**
  The Drive search filter built from a keyword list, and a parser for the
  filters it builds, used to state what the filter contains.
 */
module DriveQuery {
  import opened Wrappers
  import opened Seqs
  import opened Mimes

  /** The two kinds of quoted-literal clause the filter is made of. */
  datatype ClauseKind = KeywordClause | MimeClause

  const Or: string := " or "
  const KeywordOpen: string := "(name contains '"
  const MimeOpen: string := "mimeType='"
  const AndOpen: string := ") and ("
  const TrashedTail: string := ") and trashed=false"

  /** What follows a keyword literal in its clause: the full-text test on the same literal. */
  function KeywordClose(k: string): string {
    "' or fullText contains '" + k + "')"
  }

  /** One clause: `(name contains 'k' or fullText contains 'k')` or `mimeType='m'`. */
  function Render(kind: ClauseKind, lit: string): string {
    match kind
    case KeywordClause => KeywordOpen + lit + KeywordClose(lit)
    case MimeClause => MimeOpen + lit + "'"
  }

  /** One clause per literal, in order. */
  function Clauses(kind: ClauseKind, lits: seq<string>): (r: seq<string>)
    ensures |r| == |lits|
  {
    if |lits| == 0 then [] else [Render(kind, lits[0])] + Clauses(kind, lits[1..])
  }

  /**
    The filter for a keyword list over a list of document types: nothing for
    no keywords; otherwise the keyword disjunction, the type disjunction and
    the exclusion of trashed files, conjoined.
   */
  function FilterFor(keywords: seq<string>, mimes: seq<string>): (r: Option<string>)
    ensures r.None? <==> |keywords| == 0
    ensures r.Some? ==> StartsWith(r.value, "(" + KeywordOpen)
  {
    if |keywords| == 0 then None
    else
      var keywordFilter := Join(Clauses(KeywordClause, keywords), Or);
      var mimeFilter := Join(Clauses(MimeClause, mimes), Or);
      Some("(" + keywordFilter + AndOpen + mimeFilter + TrashedTail)
  }

  /** `build_drive_q_for_keywords`: the filter over the allowed document types. */
  function BuildFilter(keywords: seq<string>): (r: Option<string>)
    ensures r.None? <==> |keywords| == 0
  {
    FilterFor(keywords, AllowedMimes)
  }

  // ---------------------------------------------------------------------------
  // Reading a filter back

  /** A parsed value and the input left after it. */
  datatype Parsed<T> = Parsed(value: T, rest: string)

  /** The keyword literals and the type literals of a filter. */
  datatype FilterParts = FilterParts(keywords: seq<string>, mimes: seq<string>)

  /** The longest prefix of `s` free of single quotes: a quoted literal's body. */
  function TakeUntilQuote(s: string): (r: string)
    ensures |r| <= |s| && r == s[..|r|]
    ensures '\'' !in r
    ensures |r| < |s| ==> s[|r|] == '\''
  {
    if |s| == 0 || s[0] == '\'' then []
    else
      var r := [s[0]] + TakeUntilQuote(s[1..]);
      assert s[..|r|] == [s[0]] + s[1..][..|r| - 1];
      r
  }

  /** Reads one clause of the given kind off the front of `s`. */
  function ParseClause(kind: ClauseKind, s: string): (r: Option<Parsed<string>>)
    ensures r.Some? ==> |r.value.rest| < |s|
  {
    match kind
    case KeywordClause =>
      if !StartsWith(s, KeywordOpen) then None
      else
        var body := s[|KeywordOpen|..];
        var k := TakeUntilQuote(body);
        var after := body[|k|..];
        if StartsWith(after, KeywordClose(k)) then Some(Parsed(k, after[|KeywordClose(k)|..])) else None
    case MimeClause =>
      if !StartsWith(s, MimeOpen) then None
      else
        var body := s[|MimeOpen|..];
        var m := TakeUntilQuote(body);
        var after := body[|m|..];
        if StartsWith(after, "'") then Some(Parsed(m, after[1..])) else None
  }

  /** Reads a non-empty `" or "`-separated list of clauses of the given kind. */
  function ParseClauses(kind: ClauseKind, s: string): (r: Option<Parsed<seq<string>>>)
    decreases |s|
  {
    match ParseClause(kind, s)
    case None => None
    case Some(first) =>
      if StartsWith(first.rest, Or) then
        match ParseClauses(kind, first.rest[|Or|..])
        case None => None
        case Some(more) => Some(Parsed([first.value] + more.value, more.rest))
      else Some(Parsed([first.value], first.rest))
  }

  /** Reads a whole filter of the shape `BuildFilter` produces. */
  function ParseFilter(s: string): Option<FilterParts> {
    if !StartsWith(s, "(") then None
    else
      match ParseClauses(KeywordClause, s[1..])
      case None => None
      case Some(k) =>
        if !StartsWith(k.rest, AndOpen) then None
        else
          match ParseClauses(MimeClause, k.rest[|AndOpen|..])
          case None => None
          case Some(m) => if m.rest == TrashedTail then Some(FilterParts(k.value, m.value)) else None
  }

  /** A quoted literal's body ends at the first quote after it. */
  lemma {:induction false} TakeUntilQuoteOf(lit: string, u: string)
    requires '\'' !in lit && |u| > 0 && u[0] == '\''
    ensures TakeUntilQuote(lit + u) == lit
  {
    if |lit| > 0 {
      assert (lit + u)[1..] == lit[1..] + u;
      TakeUntilQuoteOf(lit[1..], u);
    } else {
      assert lit + u == u;
    }
  }

  /** A quoted literal followed by `u` reads back as the literal, leaving `u`. */
  lemma ReadQuoted(open: string, lit: string, u: string)
    requires '\'' !in lit && |u| > 0 && u[0] == '\''
    ensures StartsWith(open + lit + u, open)
    ensures (open + lit + u)[|open|..] == lit + u
    ensures TakeUntilQuote((open + lit + u)[|open|..]) == lit
    ensures (lit + u)[|lit|..] == u
  {
    assert open + lit + u == open + (lit + u);
    TakeUntilQuoteOf(lit, u);
  }

  /** A clause reads back as its own literal, whatever follows it. */
  lemma ParseRenderedClause(kind: ClauseKind, lit: string, t: string)
    requires '\'' !in lit
    ensures ParseClause(kind, Render(kind, lit) + t) == Some(Parsed(lit, t))
  {
    match kind
    case KeywordClause =>
      var close := KeywordClose(lit);
      var u := close + t;
      assert Render(kind, lit) + t == KeywordOpen + lit + u;
      ReadQuoted(KeywordOpen, lit, u);
      assert StartsWith(u, close) && u[|close|..] == t;
    case MimeClause =>
      var u := "'" + t;
      assert Render(kind, lit) + t == MimeOpen + lit + u;
      ReadQuoted(MimeOpen, lit, u);
      assert StartsWith(u, "'") && u[1..] == t;
  }

  /**
    A non-empty `" or "`-joined list of clauses reads back as its literals,
    provided what follows does not itself start with `" or "`.
   */
  lemma {:induction false} ParseRenderedClauses(kind: ClauseKind, lits: seq<string>, t: string)
    requires |lits| > 0
    requires forall i :: 0 <= i < |lits| ==> '\'' !in lits[i]
    requires !StartsWith(t, Or)
    ensures ParseClauses(kind, Join(Clauses(kind, lits), Or) + t) == Some(Parsed(lits, t))
  {
    HeadTail(lits);
    ClausesCons(kind, lits, t);
    if |lits| == 1 {
      ParseRenderedLast(kind, lits[0], t);
      assert lits == [lits[0]];
    } else {
      ParseRenderedClauses(kind, lits[1..], t);
      ParseRenderedCons(kind, lits[0], Join(Clauses(kind, lits[1..]), Or) + t, lits[1..], t);
    }
  }

  /** A clause followed by `" or "` and a readable list reads as one more element. */
  lemma ParseRenderedCons(kind: ClauseKind, x: string, u: string, xs: seq<string>, t: string)
    requires '\'' !in x
    requires ParseClauses(kind, u) == Some(Parsed(xs, t))
    ensures ParseClauses(kind, Render(kind, x) + (Or + u)) == Some(Parsed([x] + xs, t))
  {
    ParseRenderedClause(kind, x, Or + u);
    ParseClausesStep(kind, Render(kind, x) + (Or + u), x, u, xs, t);
  }

  /** A clause not followed by `" or "` ends the list. */
  lemma ParseRenderedLast(kind: ClauseKind, x: string, t: string)
    requires '\'' !in x
    requires !StartsWith(t, Or)
    ensures ParseClauses(kind, Render(kind, x) + t) == Some(Parsed([x], t))
  {
    ParseRenderedClause(kind, x, t);
    ParseClausesLast(kind, Render(kind, x) + t, x, t);
  }

  /** The first clause of a joined list, then `" or "` and the rest of the list, if any. */
  lemma ClausesCons(kind: ClauseKind, lits: seq<string>, t: string)
    requires |lits| > 0
    ensures |lits| == 1 ==> Join(Clauses(kind, lits), Or) + t == Render(kind, lits[0]) + t
    ensures |lits| > 1 ==> Join(Clauses(kind, lits), Or) + t
                           == Render(kind, lits[0]) + (Or + (Join(Clauses(kind, lits[1..]), Or) + t))
  {
    var cs := Clauses(kind, lits);
    assert cs[1..] == Clauses(kind, lits[1..]);
    if |lits| > 1 {
      RegroupRight(cs[0], Or, Join(cs[1..], Or), t);
    }
  }

  /** The last step of reading a list: a clause not followed by `" or "`. */
  lemma ParseClausesLast(kind: ClauseKind, s: string, x: string, t: string)
    requires ParseClause(kind, s) == Some(Parsed(x, t))
    requires !StartsWith(t, Or)
    ensures ParseClauses(kind, s) == Some(Parsed([x], t))
  {
  }

  /** One step of reading a list: a clause, `" or "`, then the rest of the list. */
  lemma ParseClausesStep(kind: ClauseKind, s: string, x: string, u: string, xs: seq<string>, t: string)
    requires ParseClause(kind, s) == Some(Parsed(x, Or + u))
    requires ParseClauses(kind, u) == Some(Parsed(xs, t))
    ensures ParseClauses(kind, s) == Some(Parsed([x] + xs, t))
  {
    assert (Or + u)[|Or|..] == u;
  }

  /**
    A filter built from quote-free keywords and a non-empty list of
    quote-free types reads back as exactly those keywords and exactly those
    types, each in order.
   */
  lemma FilterForRoundTrip(keywords: seq<string>, mimes: seq<string>)
    requires forall i :: 0 <= i < |keywords| ==> '\'' !in keywords[i]
    requires |mimes| > 0 && forall i :: 0 <= i < |mimes| ==> '\'' !in mimes[i]
    ensures FilterFor(keywords, mimes).Some? ==>
              ParseFilter(FilterFor(keywords, mimes).value) == Some(FilterParts(keywords, mimes))
  {
    if |keywords| > 0 {
      var k := Join(Clauses(KeywordClause, keywords), Or);
      var m := Join(Clauses(MimeClause, mimes), Or);
      FilterForShape(keywords, mimes);
      FiltersFollowers();
      ParseRenderedClauses(KeywordClause, keywords, AndOpen + (m + TrashedTail));
      ParseRenderedClauses(MimeClause, mimes, TrashedTail);
      ParseFilterParts("(" + (k + (AndOpen + (m + TrashedTail))), k + (AndOpen + (m + TrashedTail)),
                       keywords, m + TrashedTail, mimes);
    }
  }

  lemma FilterForShape(keywords: seq<string>, mimes: seq<string>)
    requires |keywords| > 0
    ensures FilterFor(keywords, mimes)
         == Some("(" + (Join(Clauses(KeywordClause, keywords), Or)
                        + (AndOpen + (Join(Clauses(MimeClause, mimes), Or) + TrashedTail))))
  {
    RegroupRight5("(", Join(Clauses(KeywordClause, keywords), Or), AndOpen,
                  Join(Clauses(MimeClause, mimes), Or), TrashedTail);
  }

  /** Neither text that follows a list of clauses starts with `" or "`. */
  lemma FiltersFollowers()
    ensures forall u :: !StartsWith(AndOpen + u, Or)
    ensures !StartsWith(TrashedTail, Or)
  {
    forall u
      ensures !StartsWith(AndOpen + u, Or)
    {
      assert (AndOpen + u)[0] == ')';
    }
    assert TrashedTail[0] == ')';
  }

  /** How `ParseFilter` puts the readings of its two lists together. */
  lemma ParseFilterParts(s: string, u: string, keywords: seq<string>, v: string, mimes: seq<string>)
    requires s == "(" + u
    requires ParseClauses(KeywordClause, u) == Some(Parsed(keywords, AndOpen + v))
    requires ParseClauses(MimeClause, v) == Some(Parsed(mimes, TrashedTail))
    ensures ParseFilter(s) == Some(FilterParts(keywords, mimes))
  {
    StartsWithConcat("(", u);
    StartsWithConcat(AndOpen, v);
  }

  /**
    The filter built from quote-free keywords reads back as exactly those
    keywords, in order, together with exactly the allowed types, in order.
   */
  lemma FilterRoundTrip(keywords: seq<string>)
    requires forall i :: 0 <= i < |keywords| ==> '\'' !in keywords[i]
    ensures BuildFilter(keywords).Some? ==>
              ParseFilter(BuildFilter(keywords).value) == Some(FilterParts(keywords, AllowedMimes))
  {
    AllowedMimesQuoteFree();
    FilterForRoundTrip(keywords, AllowedMimes);
  }

  /** Different quote-free keyword lists give different filters. */
  lemma BuildFilterInjective(a: seq<string>, b: seq<string>)
    requires forall i :: 0 <= i < |a| ==> '\'' !in a[i]
    requires forall i :: 0 <= i < |b| ==> '\'' !in b[i]
    requires BuildFilter(a) == BuildFilter(b)
    ensures a == b
  {
    FilterRoundTrip(a);
    FilterRoundTrip(b);
  }
}
