/** Shared vocabulary of the crawler model: optional values, results with an
    error, the string tests of Go's `strings` package that the crawler uses,
    the one-trailing-slash rule, and duplicate-free sequences. */
module Common {

  datatype Option<+T> = None | Some(value: T)

  /** A Go `(value, error)` pair in which exactly one side is meaningful. */
  datatype Result<+T, +E> = Success(value: T) | Failure(error: E)

  /** `strings.HasPrefix(s, prefix)`, for any sequence. */
  predicate HasPrefix<T(==)>(s: seq<T>, prefix: seq<T>)
  {
    |prefix| <= |s| && s[..|prefix|] == prefix
  }

  /** `strings.HasSuffix(s, suffix)`. */
  predicate HasSuffix(s: string, suffix: string)
  {
    |suffix| <= |s| && s[|s| - |suffix|..] == suffix
  }

  /** `if strings.HasSuffix(s, "/") { s = s[:len(s)-1] }`: removes one
      trailing slash, and only one. */
  function DropTrailingSlash(s: string): (r: string)
    ensures HasPrefix(s, r)
    ensures HasSuffix(s, "/") ==> |r| == |s| - 1
    ensures !HasSuffix(s, "/") ==> r == s
  {
    if HasSuffix(s, "/") then s[..|s| - 1] else s
  }

  /** No element occurs twice: there are as many distinct elements as
      positions. */
  predicate NoDup<T(==)>(s: seq<T>)
  {
    |Elements(s)| == |s|
  }

  function Elements<T>(s: seq<T>): set<T>
  {
    set x | x in s
  }

  lemma PrefixTransitive<T>(a: seq<T>, b: seq<T>, c: seq<T>)
    requires HasPrefix(b, a) && HasPrefix(c, b)
    ensures HasPrefix(c, a)
  {
    assert c[..|b|][..|a|] == c[..|a|];
  }

  lemma PrefixOfSnoc<T>(s: seq<T>, x: T)
    ensures HasPrefix(s + [x], s)
  {
    assert (s + [x])[..|s|] == s;
  }

  lemma PrefixSnoc<T>(s: seq<T>, i: nat)
    requires i < |s|
    ensures s[..i + 1] == s[..i] + [s[i]] && s[..i + 1][..i] == s[..i]
  {
  }

  /** Appending one element after a concatenation. */
  lemma SnocAssoc<T>(a: seq<T>, b: seq<T>, x: T)
    ensures (a + b) + [x] == a + (b + [x])
  {
  }

  lemma ElementsSnoc<T>(s: seq<T>, x: T)
    ensures Elements(s + [x]) == Elements(s) + {x}
  {
  }

  /** Appending an element not yet present keeps a sequence duplicate-free. */
  lemma NoDupSnoc<T>(s: seq<T>, x: T)
    requires NoDup(s) && x !in s
    ensures NoDup(s + [x])
  {
    ElementsSnoc(s, x);
  }

  /** A sequence has at most as many distinct elements as positions. */
  lemma {:induction false} ElementsBound<T>(s: seq<T>)
    ensures |Elements(s)| <= |s|
  {
    if s != [] {
      var init := s[..|s| - 1];
      ElementsBound(init);
      assert s == init + [s[|s| - 1]];
      ElementsSnoc(init, s[|s| - 1]);
    }
  }

  /** In a duplicate-free sequence, elements at different positions differ. */
  lemma {:induction false} NoDupDistinct<T>(s: seq<T>, i: nat, j: nat)
    requires NoDup(s) && i < j < |s|
    ensures s[i] != s[j]
  {
    var init, last := s[..|s| - 1], s[|s| - 1];
    assert s == init + [last];
    ElementsSnoc(init, last);
    ElementsBound(init);
    assert last !in Elements(init);
    assert s[i] == init[i];
    if j < |s| - 1 {
      NoDupDistinct(init, i, j);
      assert s[j] == init[j];
    }
  }

  /** A subset of a finite set is no larger than it. */
  lemma {:induction false} SubsetCardinality<T>(a: set<T>, b: set<T>)
    requires a <= b
    ensures |a| <= |b|
    decreases b
  {
    if b != {} {
      var y :| y in b;
      SubsetCardinality(a - {y}, b - {y});
    }
  }
}
