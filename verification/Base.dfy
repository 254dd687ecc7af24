// Small vocabulary shared by the model: optional values, results with an error, and the
// code-point order that Python uses to compare strings.

module Base {

  datatype Option<+T> = None | Some(value: T)

  datatype Result<+T, +E> = Ok(value: T) | Err(error: E)

  /** A JSON value. */
  datatype Json =
    | JNull
    | JBool(b: bool)
    | JNum(n: real)
    | JStr(s: string)
    | JList(items: seq<Json>)
    | JObj(fields: map<string, Json>)

  function Max(a: int, b: int): int {
    if a < b then b else a
  }

  function Min(a: int, b: int): int {
    if a < b then a else b
  }

  lemma MaxAndMin(a: int, b: int)
    ensures Max(a, b) in {a, b} && a <= Max(a, b) && b <= Max(a, b)
    ensures Min(a, b) in {a, b} && Min(a, b) <= a && Min(a, b) <= b
  {
  }

  /** The elements of a sequence, as a set. */
  function Elements<T>(s: seq<T>): set<T> {
    set x | x in s
  }

  ghost predicate NoDuplicates<T>(s: seq<T>) {
    forall i, j :: 0 <= i < j < |s| ==> s[i] != s[j]
  }

  lemma {:induction false} DistinctCardinality<T>(s: seq<T>)
    requires NoDuplicates(s)
    ensures |Elements(s)| == |s|
  {
    if s == [] {
      assert Elements(s) == {};
    } else {
      var last := s[|s| - 1];
      var front := s[..|s| - 1];
      DistinctCardinality(front);
      assert Elements(s) == Elements(front) + {last};
      assert last !in Elements(front);
    }
  }

  lemma SubsetCardinality<T>(a: set<T>, b: set<T>)
    requires a <= b
    ensures |a| <= |b|
  {
    assert b == a + (b - a);
  }

  lemma FullCardinality<T>(a: set<T>, b: set<T>)
    requires a <= b && |a| >= |b|
    ensures a == b
  {
    assert b == a + (b - a);
  }

  lemma {:induction false} ElementsAtMost<T>(s: seq<T>)
    ensures |Elements(s)| <= |s|
  {
    if s == [] {
      assert Elements(s) == {};
    } else {
      ElementsAtMost(s[1..]);
      assert s == [s[0]] + s[1..];
      assert Elements(s) == {s[0]} + Elements(s[1..]);
    }
  }

  /** A sequence longer than the set it draws from repeats an element. */
  lemma Pigeonhole<T>(s: seq<T>, pool: set<T>) returns (i: nat, j: nat)
    requires |s| > |pool|
    requires forall k :: 0 <= k < |s| ==> s[k] in pool
    ensures i < j < |s| && s[i] == s[j]
  {
    if NoDuplicates(s) {
      DistinctCardinality(s);
      SubsetCardinality(Elements(s), pool);
      assert false;
    }
    i, j :| 0 <= i < j < |s| && s[i] == s[j];
  }

  // ----- Strings in code-point order -----

  predicate StrLess(a: string, b: string) {
    if b == [] then false
    else if a == [] then true
    else a[0] < b[0] || (a[0] == b[0] && StrLess(a[1..], b[1..]))
  }

  lemma {:induction false} StrLessTotal(a: string, b: string)
    ensures a == b || StrLess(a, b) || StrLess(b, a)
  {
    if a != [] && b != [] && a[0] == b[0] {
      StrLessTotal(a[1..], b[1..]);
      assert a == [a[0]] + a[1..] && b == [b[0]] + b[1..];
    }
  }

  lemma {:induction false} StrLessAsymmetric(a: string, b: string)
    requires StrLess(a, b)
    ensures a != b && !StrLess(b, a)
  {
    if a != [] && a[0] == b[0] {
      StrLessAsymmetric(a[1..], b[1..]);
    }
  }

  lemma {:induction false} StrLessTransitive(a: string, b: string, c: string)
    requires StrLess(a, b) && StrLess(b, c)
    ensures StrLess(a, c)
  {
    if a != [] && a[0] == b[0] && b[0] == c[0] {
      StrLessTransitive(a[1..], b[1..], c[1..]);
    }
  }

  /** a is a proper prefix of b, or has the smaller character where they first differ. */
  ghost predicate FirstDiffersBelow(a: string, b: string) {
    exists k: nat :: DiffersBelowAt(a, b, k)
  }

  ghost predicate DiffersBelowAt(a: string, b: string, k: nat) {
    k <= |a| && k < |b| && a[..k] == b[..k] && (k == |a| || a[k] < b[k])
  }

  lemma {:induction false} StrLessIsCodePointOrder(a: string, b: string)
    ensures StrLess(a, b) <==> FirstDiffersBelow(a, b)
  {
    if b == [] {
    } else if a == [] || a[0] < b[0] {
      assert DiffersBelowAt(a, b, 0);
    } else {
      if a[0] == b[0] { StrLessIsCodePointOrder(a[1..], b[1..]); }
      if StrLess(a, b) {
        var k: nat :| DiffersBelowAt(a[1..], b[1..], k);
        assert a == [a[0]] + a[1..] && b == [b[0]] + b[1..];
        assert a[..k + 1] == [a[0]] + a[1..][..k] && b[..k + 1] == [b[0]] + b[1..][..k];
        assert DiffersBelowAt(a, b, k + 1);
      } else if FirstDiffersBelow(a, b) {
        var k: nat :| DiffersBelowAt(a, b, k);
        assert k > 0 && a[..k][0] == a[0] && b[..k][0] == b[0];
        assert a[1..][..k - 1] == a[..k][1..] && b[1..][..k - 1] == b[..k][1..];
        assert DiffersBelowAt(a[1..], b[1..], k - 1);
      }
    }
  }

  // ----- Strictly sorted sequences -----

  ghost predicate StrictlySorted<T(!new)>(lt: (T, T) -> bool, s: seq<T>) {
    forall i, j :: 0 <= i < j < |s| ==> lt(s[i], s[j])
  }

  lemma ElementsNonEmpty<T>(s: seq<T>)
    ensures s != [] ==> Elements(s) != {}
  {
    if s != [] { assert s[0] in Elements(s); }
  }

  lemma FirstIsLeast<T(!new)>(lt: (T, T) -> bool, s: seq<T>, x: T)
    requires s != [] && StrictlySorted(lt, s) && x in s && x != s[0]
    ensures lt(s[0], x)
  {
    var i :| 0 <= i < |s| && s[i] == x;
  }

  /** Two strictly sorted sequences with the same elements are the same sequence. */
  lemma {:induction false} SortedUnique<T(!new)>(lt: (T, T) -> bool, s: seq<T>, t: seq<T>)
    requires forall a, b :: lt(a, b) ==> !lt(b, a)
    requires StrictlySorted(lt, s) && StrictlySorted(lt, t)
    requires Elements(s) == Elements(t)
    ensures s == t
  {
    ElementsNonEmpty(s);
    ElementsNonEmpty(t);
    if s != [] {
      assert s[0] in Elements(t) && t[0] in Elements(s);
      if s[0] != t[0] {
        FirstIsLeast(lt, s, t[0]);
        FirstIsLeast(lt, t, s[0]);
      }
      TailElements(lt, s);
      TailElements(lt, t);
      SortedUnique(lt, s[1..], t[1..]);
      assert s == [s[0]] + s[1..] && t == [t[0]] + t[1..];
    }
  }

  lemma TailElements<T(!new)>(lt: (T, T) -> bool, s: seq<T>)
    requires s != [] && StrictlySorted(lt, s)
    requires forall a, b :: lt(a, b) ==> !lt(b, a)
    ensures Elements(s[1..]) == Elements(s) - {s[0]}
  {
    forall k | 1 <= k < |s|
      ensures s[k] != s[0]
    {
      assert lt(s[0], s[k]);
    }
    assert s == [s[0]] + s[1..];
  }
}
