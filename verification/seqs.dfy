/** Sequence helpers mirroring the Python list and string operations the source uses. */
module Seqs {

  /** `s[:len(p)] == p`, Python's `str.startswith`. */
  predicate StartsWith<T(==)>(s: seq<T>, p: seq<T>) {
    |p| <= |s| && s[..|p|] == p
  }

  /** The elements of `s` satisfying `p`, in order: a list comprehension with an `if`. */
  function Filter<T>(s: seq<T>, p: T -> bool): (r: seq<T>)
    ensures |r| <= |s|
    ensures forall i :: 0 <= i < |r| ==> p(r[i])
    ensures forall x :: x in r ==> x in s
    ensures forall x :: x in s && p(x) ==> x in r
  {
    if |s| == 0 then []
    else (if p(s[0]) then [s[0]] else []) + Filter(s[1..], p)
  }

  lemma {:induction false} FilterConcat<T>(a: seq<T>, b: seq<T>, p: T -> bool)
    ensures Filter(a + b, p) == Filter(a, p) + Filter(b, p)
  {
    if |a| == 0 {
      assert a + b == b;
    } else {
      assert (a + b)[1..] == a[1..] + b;
      FilterConcat(a[1..], b, p);
    }
  }

  lemma {:induction false} FilterNone<T>(s: seq<T>, p: T -> bool)
    requires forall i :: 0 <= i < |s| ==> !p(s[i])
    ensures Filter(s, p) == []
  {
    if |s| > 0 {
      FilterNone(s[1..], p);
    }
  }

  /**
    Two filters agree when every element of `a` is kept by `p` exactly when
    the element at the same position of `b` is kept by `q`, and the kept
    elements are equal.
   */
  lemma {:induction false} FilterPointwise<T>(a: seq<T>, p: T -> bool, b: seq<T>, q: T -> bool)
    requires |a| == |b|
    requires forall i :: 0 <= i < |a| ==> p(a[i]) == q(b[i])
    requires forall i :: 0 <= i < |a| && p(a[i]) ==> a[i] == b[i]
    ensures Filter(a, p) == Filter(b, q)
  {
    if |a| > 0 {
      FilterPointwise(a[1..], p, b[1..], q);
    }
  }

  /** `sep.join(parts)`. */
  function Join<T>(parts: seq<seq<T>>, sep: seq<T>): seq<T>
  {
    if |parts| == 0 then []
    else if |parts| == 1 then parts[0]
    else parts[0] + sep + Join(parts[1..], sep)
  }

  /** Prepending an element to the first part prepends it to the joined whole. */
  lemma JoinPrependHead<T>(parts: seq<seq<T>>, x: T, sep: seq<T>)
    requires |parts| > 0
    ensures Join([[x] + parts[0]] + parts[1..], sep) == [x] + Join(parts, sep)
  {
    var ps := [[x] + parts[0]] + parts[1..];
    assert ps[1..] == parts[1..];
    if |parts| > 1 {
      assert Join(ps, sep) == [x] + parts[0] + sep + Join(parts[1..], sep);
    }
  }

  /** Joining a first part ahead of at least one more puts the separator between them. */
  lemma JoinCons<T>(p: seq<T>, parts: seq<seq<T>>, sep: seq<T>)
    requires |parts| > 0
    ensures Join([p] + parts, sep) == p + sep + Join(parts, sep)
  {
    assert ([p] + parts)[1..] == parts;
  }

  /** `s.split(sep)` for a one-element separator: never empty, keeps empty pieces. */
  function SplitOn<T(==)>(s: seq<T>, sep: T): (r: seq<seq<T>>)
    ensures |r| > 0
    ensures forall i :: 0 <= i < |r| ==> sep !in r[i]
  {
    if |s| == 0 then [[]]
    else
      var rest := SplitOn(s[1..], sep);
      if s[0] == sep then [[]] + rest
      else [[s[0]] + rest[0]] + rest[1..]
  }

  /** Joining the pieces of a split with the separator gives back the original. */
  lemma {:induction false} JoinSplitOn<T>(s: seq<T>, sep: T)
    ensures Join(SplitOn(s, sep), [sep]) == s
  {
    if |s| > 0 {
      var rest := SplitOn(s[1..], sep);
      JoinSplitOn(s[1..], sep);
      if s[0] == sep {
        assert SplitOn(s, sep) == [[]] + rest;
        JoinCons([], rest, [sep]);
      } else {
        assert SplitOn(s, sep) == [[s[0]] + rest[0]] + rest[1..];
        JoinPrependHead(rest, s[0], [sep]);
      }
    }
  }


  /*
    Regroupings of a four-part concatenation, stated generically so that
    proofs about string literals need not unfold the literals.
   */
  lemma RegroupRight<T>(a: seq<T>, b: seq<T>, c: seq<T>, d: seq<T>)
    ensures a + b + c + d == a + (b + (c + d))
  {
  }

  lemma RegroupRight5<T>(a: seq<T>, b: seq<T>, c: seq<T>, d: seq<T>, e: seq<T>)
    ensures a + b + c + d + e == a + (b + (c + (d + e)))
  {
  }

  lemma HeadTail<T>(xs: seq<T>)
    requires |xs| > 0
    ensures [xs[0]] + xs[1..] == xs
  {
  }

  lemma RegroupMiddle<T>(a: seq<T>, b: seq<T>, c: seq<T>, d: seq<T>)
    ensures a + (b + c) + d == a + b + c + d
  {
  }

  /** A concatenation starts with its first part; dropping that part leaves the second. */
  lemma StartsWithConcat<T>(a: seq<T>, b: seq<T>)
    ensures StartsWith(a + b, a) && (a + b)[|a|..] == b
  {
  }

  /** The images of `xs` under `f`, concatenated in order. */
  function Flatten<T, U>(xs: seq<T>, f: T -> seq<U>): seq<U>
  {
    if |xs| == 0 then [] else Flatten(xs[..|xs| - 1], f) + f(xs[|xs| - 1])
  }

  lemma {:induction false} FlattenAppend<T, U>(a: seq<T>, b: seq<T>, f: T -> seq<U>)
    ensures Flatten(a + b, f) == Flatten(a, f) + Flatten(b, f)
    decreases |b|
  {
    if |b| == 0 {
      assert a + b == a;
    } else {
      assert (a + b)[..|a + b| - 1] == a + b[..|b| - 1];
      FlattenAppend(a, b[..|b| - 1], f);
    }
  }

  /** Element `i` contributes its image between the images of the elements before and after it. */
  lemma FlattenAt<T, U>(xs: seq<T>, i: nat, f: T -> seq<U>)
    requires i < |xs|
    ensures Flatten(xs, f) == Flatten(xs[..i], f) + f(xs[i]) + Flatten(xs[i + 1..], f)
  {
    var before, after := xs[..i], xs[i + 1..];
    assert xs == before + ([xs[i]] + after);
    FlattenAppend(before, [xs[i]] + after, f);
    FlattenAppend([xs[i]], after, f);
    FlattenSingle(xs[i], f);
  }

  lemma FlattenSingle<T, U>(x: T, f: T -> seq<U>)
    ensures Flatten([x], f) == f(x)
  {
    assert [x][..0] == [];
    assert Flatten([x], f) == Flatten([], f) + f(x);
  }


  /** The parts concatenated in order. */
  function Concat<T>(parts: seq<seq<T>>): seq<T>
  {
    if |parts| == 0 then [] else parts[0] + Concat(parts[1..])
  }

  lemma {:induction false} FilterAll<T>(s: seq<T>, p: T -> bool)
    requires forall i :: 0 <= i < |s| ==> p(s[i])
    ensures Filter(s, p) == s
  {
    if |s| > 0 {
      FilterAll(s[1..], p);
    }
  }

  /** Dropping the separators from a join leaves the parts, concatenated. */
  lemma {:induction false} FilterJoin<T>(parts: seq<seq<T>>, sep: T, p: T -> bool)
    requires forall x :: p(x) <==> x != sep
    requires forall i :: 0 <= i < |parts| ==> sep !in parts[i]
    ensures Filter(Join(parts, [sep]), p) == Concat(parts)
  {
    if |parts| == 1 {
      FilterAll(parts[0], p);
      assert Concat(parts) == parts[0] + [];
    } else if |parts| > 1 {
      FilterJoin(parts[1..], sep, p);
      FilterAll(parts[0], p);
      FilterConcat(parts[0] + [sep], Join(parts[1..], [sep]), p);
      FilterConcat(parts[0], [sep], p);
      assert Filter([sep], p) == [];
    }
  }
}
