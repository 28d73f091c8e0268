/**
 * `levenshteinDistance` of services/textUtils.ts:19-37: the edit distance
 * between two words, filled into a matrix whose rows run over the second
 * word and whose columns run over the first.
 */
module EditDistance {

  function Min(x: nat, y: nat): nat {
    if x <= y then x else y
  }

  function Max(x: nat, y: nat): nat {
    if x <= y then y else x
  }

  /** The number of single-character insertions, deletions and
      substitutions that turn `a` into `b`, by the recurrence the matrix
      follows: equal last characters cost nothing, otherwise the cheapest of
      a substitution, an insertion and a deletion. */
  function Lev(a: string, b: string): nat
    decreases |a| + |b|
  {
    if |b| == 0 then |a|
    else if |a| == 0 then |b|
    else if b[|b| - 1] == a[|a| - 1] then Lev(a[..|a| - 1], b[..|b| - 1])
    else Min(Lev(a[..|a| - 1], b[..|b| - 1]) + 1,
             Min(Lev(a[..|a| - 1], b) + 1, Lev(a, b[..|b| - 1]) + 1))
  }

  /** One matrix cell in terms of its three neighbours. */
  lemma LevStep(a: string, b: string, i: nat, j: nat)
    requires 1 <= i <= |b| && 1 <= j <= |a|
    ensures Lev(a[..j], b[..i]) ==
      if b[i - 1] == a[j - 1] then Lev(a[..j - 1], b[..i - 1])
      else Min(Lev(a[..j - 1], b[..i - 1]) + 1,
               Min(Lev(a[..j - 1], b[..i]) + 1, Lev(a[..j], b[..i - 1]) + 1))
  {
    assert a[..j][..j - 1] == a[..j - 1];
    assert b[..i][..i - 1] == b[..i - 1];
  }

  /** The dynamic-programming computation. */
  method LevenshteinDistance(a: string, b: string) returns (d: nat)
    ensures d == Lev(a, b)
  {
    var m := new nat[|b| + 1, |a| + 1];
    var i := 0;
    while i <= |b|
      invariant 0 <= i <= |b| + 1
      invariant forall k :: 0 <= k < i ==> m[k, 0] == k
    {
      m[i, 0] := i;
      i := i + 1;
    }
    var j := 0;
    while j <= |a|
      invariant 0 <= j <= |a| + 1
      invariant forall l :: 0 <= l < j ==> m[0, l] == l
      invariant forall k :: 0 <= k <= |b| ==> m[k, 0] == k
    {
      m[0, j] := j;
      j := j + 1;
    }
    forall l | 0 <= l <= |a| ensures m[0, l] == Lev(a[..l], b[..0]) { }
    i := 1;
    while i <= |b|
      invariant 1 <= i <= |b| + 1
      invariant forall k, l :: 0 <= k < i && 0 <= l <= |a| ==> m[k, l] == Lev(a[..l], b[..k])
      invariant forall k :: i <= k <= |b| ==> m[k, 0] == k
    {
      FillRow(m, a, b, i);
      i := i + 1;
    }
    d := m[|b|, |a|];
    assert a[..|a|] == a && b[..|b|] == b;
  }

  /** Fills row `i` of the matrix from the row above it. */
  method FillRow(m: array2<nat>, a: string, b: string, i: nat)
    requires m.Length0 == |b| + 1 && m.Length1 == |a| + 1 && 1 <= i <= |b|
    requires forall k, l :: 0 <= k < i && 0 <= l <= |a| ==> m[k, l] == Lev(a[..l], b[..k])
    requires forall k :: i <= k <= |b| ==> m[k, 0] == k
    modifies m
    ensures forall k, l :: 0 <= k <= i && 0 <= l <= |a| ==> m[k, l] == Lev(a[..l], b[..k])
    ensures forall k :: i < k <= |b| ==> m[k, 0] == k
  {
    assert m[i, 0] == Lev(a[..0], b[..i]);
    var j := 1;
    while j <= |a|
      invariant 1 <= j <= |a| + 1
      invariant forall k, l :: 0 <= k < i && 0 <= l <= |a| ==> m[k, l] == Lev(a[..l], b[..k])
      invariant forall l :: 0 <= l < j ==> m[i, l] == Lev(a[..l], b[..i])
      invariant forall k :: i < k <= |b| ==> m[k, 0] == k
    {
      if b[i - 1] == a[j - 1] {
        m[i, j] := m[i - 1, j - 1];
      } else {
        m[i, j] := Min(m[i - 1, j - 1] + 1, Min(m[i, j - 1] + 1, m[i - 1, j] + 1));
      }
      LevStep(a, b, i, j);
      j := j + 1;
    }
  }

  /** Against the empty word the distance is the other word's length. */
  lemma {:induction false} LevFromEmpty(a: string)
    ensures Lev(a, "") == |a| && Lev("", a) == |a|
  {
  }

  /** A word is at distance 0 from itself. */
  lemma {:induction false} LevSelf(a: string)
    ensures Lev(a, a) == 0
    decreases |a|
  {
    if |a| > 0 {
      LevSelf(a[..|a| - 1]);
    }
  }

  /** Distance 0 means the words are equal. */
  lemma {:induction false} LevZero(a: string, b: string)
    ensures Lev(a, b) == 0 <==> a == b
    decreases |a| + |b|
  {
    if a == b {
      LevSelf(a);
    } else if |a| > 0 && |b| > 0 && b[|b| - 1] == a[|a| - 1] {
      LevZero(a[..|a| - 1], b[..|b| - 1]);
    }
  }

  /** The distance does not depend on the order of the words. */
  lemma {:induction false} LevSymmetric(a: string, b: string)
    ensures Lev(a, b) == Lev(b, a)
    decreases |a| + |b|
  {
    if |a| > 0 && |b| > 0 {
      LevSymmetric(a[..|a| - 1], b[..|b| - 1]);
      LevSymmetric(a[..|a| - 1], b);
      LevSymmetric(a, b[..|b| - 1]);
    }
  }

  /** The distance never exceeds the longer word's length and is never less
      than the difference of the lengths. */
  lemma {:induction false} LevBounds(a: string, b: string)
    ensures Lev(a, b) <= Max(|a|, |b|)
    ensures |a| - |b| <= Lev(a, b) && |b| - |a| <= Lev(a, b)
    decreases |a| + |b|
  {
    if |a| > 0 && |b| > 0 {
      LevBounds(a[..|a| - 1], b[..|b| - 1]);
      LevBounds(a[..|a| - 1], b);
      LevBounds(a, b[..|b| - 1]);
    }
  }

  /** Adding or removing the last character of either word changes the
      distance by at most one. */
  lemma {:induction false} LevLastChar(a: string, b: string)
    ensures |a| >= 1 ==> Lev(a[..|a| - 1], b) <= Lev(a, b) + 1 && Lev(a, b) <= Lev(a[..|a| - 1], b) + 1
    ensures |b| >= 1 ==> Lev(a, b[..|b| - 1]) <= Lev(a, b) + 1 && Lev(a, b) <= Lev(a, b[..|b| - 1]) + 1
    decreases |a| + |b|
  {
    if |a| >= 1 && |b| >= 1 {
      LevLastChar(a[..|a| - 1], b);
      LevLastChar(a, b[..|b| - 1]);
      LevLastChar(a[..|a| - 1], b[..|b| - 1]);
    }
  }

  /** The textbook recurrence, which also considers an insertion or a
      deletion when the last characters are equal. */
  function WagnerFischer(a: string, b: string): nat
    decreases |a| + |b|
  {
    if |b| == 0 then |a|
    else if |a| == 0 then |b|
    else Min(WagnerFischer(a[..|a| - 1], b[..|b| - 1]) + (if b[|b| - 1] == a[|a| - 1] then 0 else 1),
             Min(WagnerFischer(a[..|a| - 1], b) + 1, WagnerFischer(a, b[..|b| - 1]) + 1))
  }

  /** Taking the diagonal cell outright when the characters are equal, as
      the matrix does, gives the textbook distance. */
  lemma {:induction false} LevIsWagnerFischer(a: string, b: string)
    ensures Lev(a, b) == WagnerFischer(a, b)
    decreases |a| + |b|
  {
    if |a| >= 1 && |b| >= 1 {
      LevIsWagnerFischer(a[..|a| - 1], b[..|b| - 1]);
      LevIsWagnerFischer(a[..|a| - 1], b);
      LevIsWagnerFischer(a, b[..|b| - 1]);
      LevLastChar(a[..|a| - 1], b);
      LevLastChar(a, b[..|b| - 1]);
    }
  }
}
