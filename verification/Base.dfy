/** Option, and the total weight of a sequence: the one counting device shared by every
    accounting invariant of the project. */
module Base {

  datatype Option<+T> = None | Some(value: T)

  /** The sum of w over the elements of s. */
  ghost function Sum<T>(w: T -> nat, s: seq<T>): nat {
    if s == [] then 0 else Sum(w, s[..|s| - 1]) + w(s[|s| - 1])
  }

  lemma {:induction false} SumUpdate<T>(w: T -> nat, s: seq<T>, i: nat, x: T)
    requires i < |s|
    ensures Sum(w, s[i := x]) + w(s[i]) == Sum(w, s) + w(x)
  {
    var n := |s| - 1;
    if i == n {
      assert s[i := x][..n] == s[..n];
    } else {
      assert s[i := x][..n] == s[..n][i := x];
      SumUpdate(w, s[..n], i, x);
    }
  }

  lemma SumAppend<T>(w: T -> nat, s: seq<T>, x: T)
    ensures Sum(w, s + [x]) == Sum(w, s) + w(x)
  {
    assert (s + [x])[..|s|] == s;
  }

  lemma {:induction false} SumConcat<T>(w: T -> nat, s: seq<T>, t: seq<T>)
    ensures Sum(w, s + t) == Sum(w, s) + Sum(w, t)
  {
    if t == [] {
      assert s + t == s;
    } else {
      var n := |t| - 1;
      SumConcat(w, s, t[..n]);
      assert (s + t)[..|s| + n] == s + t[..n];
    }
  }

  lemma {:induction false} SumAtLeast<T>(w: T -> nat, s: seq<T>, i: nat)
    requires i < |s|
    ensures w(s[i]) <= Sum(w, s)
  {
    if i < |s| - 1 {
      SumAtLeast(w, s[..|s| - 1], i);
    }
  }

  /** A positive total has a positive element. */
  lemma {:induction false} SumWitness<T>(w: T -> nat, s: seq<T>) returns (i: nat)
    requires Sum(w, s) > 0
    ensures i < |s| && w(s[i]) > 0
  {
    var n := |s| - 1;
    if w(s[n]) > 0 {
      i := n;
    } else {
      i := SumWitness(w, s[..n]);
    }
  }

  lemma {:induction false} SumSame<T>(v: T -> nat, w: T -> nat, s: seq<T>)
    requires forall i | 0 <= i < |s| :: v(s[i]) == w(s[i])
    ensures Sum(v, s) == Sum(w, s)
  {
    if s != [] {
      SumSame(v, w, s[..|s| - 1]);
    }
  }

  /** Taking one element out. */
  lemma {:induction false} SumRemove<T>(w: T -> nat, s: seq<T>, i: nat)
    requires i < |s|
    ensures Sum(w, s[..i] + s[i + 1..]) + w(s[i]) == Sum(w, s)
  {
    var n := |s| - 1;
    if i == n {
      assert s[..i] + s[i + 1..] == s[..n];
    } else {
      SumRemove(w, s[..n], i);
      assert (s[..i] + s[i + 1..])[..n - 1] == s[..n][..i] + s[..n][i + 1..];
    }
  }

  /** Without repetition, one element with weight is the whole total. */
  lemma {:induction false} SumOfOne<T>(w: T -> nat, s: seq<T>, x: T)
    requires forall i, j | 0 <= i < j < |s| :: s[i] != s[j]
    requires forall i | 0 <= i < |s| && s[i] != x :: w(s[i]) == 0
    ensures Sum(w, s) == if x in s then w(x) else 0
  {
    if s != [] {
      SumOfOne(w, s[..|s| - 1], x);
    }
  }
}
