/** Definitions that several modules share. */
module Common {

  datatype Option<T> = None | Some(value: T)

  ghost predicate NoDup<T>(s: seq<T>) { forall i, j | 0 <= i < j < |s| :: s[i] != s[j] }

  /** Takes the first `x` out of a sequence. */
  function Remove<T(==)>(s: seq<T>, x: T): seq<T> {
    if s == [] then [] else if s[0] == x then s[1..] else [s[0]] + Remove(s[1..], x)
  }

  lemma {:induction false} RemoveIs<T>(s: seq<T>, x: T)
    requires NoDup(s)
    ensures NoDup(Remove(s, x)) && forall y :: y in Remove(s, x) <==> y in s && y != x
  {
    if s != [] {
      assert s == [s[0]] + s[1..];
      assert s[0] !in s[1..];
      if s[0] != x { RemoveIs(s[1..], x); }
    }
  }

  lemma {:induction false} RemoveCounts<T>(s: seq<T>, x: T)
    ensures multiset(Remove(s, x)) == multiset(s) - multiset{x}
  {
    if s != [] {
      assert s == [s[0]] + s[1..];
      if s[0] != x { RemoveCounts(s[1..], x); }
    }
  }

  lemma {:induction false} RemoveAt<T>(s: seq<T>, x: T, k: nat)
    requires k < |s| && s[k] == x && x !in s[..k]
    ensures Remove(s, x) == s[..k] + s[k + 1..]
  {
    if k > 0 {
      assert s[0] == s[..k][0];
      assert s[..k][1..] == s[1..][..k - 1];
      RemoveAt(s[1..], x, k - 1);
      assert s[..k] == [s[0]] + s[1..][..k - 1] && s[1..][k..] == s[k + 1..];
    }
  }

  lemma {:induction false} RemoveNone<T>(s: seq<T>, x: T)
    requires x !in s
    ensures Remove(s, x) == s
  {
    if s != [] {
      assert s == [s[0]] + s[1..];
      RemoveNone(s[1..], x);
    }
  }

  lemma CutCons<T>(s: seq<T>, k: nat)
    requires 0 < k < |s|
    ensures s[..k] + s[k + 1..] == [s[0]] + (s[1..][..k - 1] + s[1..][k..])
  {
    assert s[..k] == [s[0]] + s[1..][..k - 1] && s[1..][k..] == s[k + 1..];
  }

  lemma AppendNew<T>(s: seq<T>, x: T)
    requires NoDup(s) && x !in s
    ensures NoDup(s + [x])
  {
  }

  lemma TailIs<T>(s: seq<T>)
    requires s != [] && NoDup(s)
    ensures NoDup(s[1..]) && s[0] !in s[1..] && forall x :: x in s <==> x == s[0] || x in s[1..]
  {
    assert s == [s[0]] + s[1..];
  }

  lemma PrefixMore<T>(s: seq<T>, k: nat)
    requires k < |s|
    ensures s[..k + 1] == s[..k] + [s[k]] && forall x :: x in s[..k + 1] <==> x in s[..k] || x == s[k]
    ensures NoDup(s) ==> s[k] !in s[..k]
  {
    assert s[..k + 1] == s[..k] + [s[k]];
  }
}
