/**
 * The pieces of the Kotlin standard library the view model leans on:
 * nullable values, the 32-bit `Int`, and `List<T>.minus(element)`.
 */
module Kotlin {

  /** Writing a key twice keeps only the second value. */
  lemma MapOverwrite<K, V>(m: map<K, V>, k: K, a: V, b: V)
    ensures m[k := a][k := b] == m[k := b]
  {
  }

  /** A Kotlin nullable value `T?`. */
  datatype Option<T> = None | Some(value: T)

  /** `orEmpty()` on a nullable list: the list itself, or the empty list for null. */
  function OrEmpty<T>(o: Option<seq<T>>): (r: seq<T>)
    ensures o.Some? ==> r == o.value
    ensures o.None? ==> r == []
  {
    match o
    case Some(items) => items
    case None => []
  }

  /** Kotlin's `Int`: a signed 32-bit integer. */
  newtype int32 = x: int | -0x8000_0000 <= x < 0x8000_0000

  /** `Int.MAX_VALUE`. */
  const IntMaxValue: int32 := 0x7fff_ffff

  predicate NoDuplicates<T(==)>(s: seq<T>) {
    forall i, j :: 0 <= i < j < |s| ==> s[i] != s[j]
  }

  /**
   * `s - x` on a Kotlin `List`: the list without the FIRST occurrence of `x`,
   * or the list itself when `x` does not occur.
   */
  function RemoveFirst<T(==)>(s: seq<T>, x: T): (r: seq<T>)
    ensures x !in s ==> r == s
    ensures x in s ==> |r| == |s| - 1
    ensures forall y :: y in r ==> y in s
    ensures forall y :: y in s && y != x ==> y in r
    decreases |s|
  {
    if s == [] then []
    else
      assert s == [s[0]] + s[1..];
      if s[0] == x then s[1..] else [s[0]] + RemoveFirst(s[1..], x)
  }

  /** `RemoveFirst` takes away exactly one occurrence of an element that occurs. */
  lemma {:induction false} RemoveFirstElements<T>(s: seq<T>, x: T)
    requires x in s
    ensures multiset(RemoveFirst(s, x)) == multiset(s) - multiset{x}
    decreases |s|
  {
    assert s == [s[0]] + s[1..];
    if s[0] != x {
      RemoveFirstElements(s[1..], x);
    }
  }

  /** Removing from a list without duplicates removes the element altogether. */
  lemma {:induction false} RemoveFirstNoDuplicates<T>(s: seq<T>, x: T)
    requires NoDuplicates(s)
    ensures NoDuplicates(RemoveFirst(s, x)) && x !in RemoveFirst(s, x)
  {
    if s != [] && s[0] != x {
      assert NoDuplicates(s[1..]) by {
        forall i, j | 0 <= i < j < |s[1..]| ensures s[1..][i] != s[1..][j] {
          assert s[1..][i] == s[i + 1] && s[1..][j] == s[j + 1];
        }
      }
      RemoveFirstNoDuplicates(s[1..], x);
      var rest := RemoveFirst(s[1..], x);
      assert s[0] !in s[1..] by {
        forall k | 0 <= k < |s[1..]| ensures s[1..][k] != s[0] {
          assert s[1..][k] == s[k + 1];
        }
      }
      var r := [s[0]] + rest;
      forall i, j | 0 <= i < j < |r| ensures r[i] != r[j] {
        if i > 0 {
          assert r[i] == rest[i - 1] && r[j] == rest[j - 1];
        } else {
          assert r[j] == rest[j - 1];
        }
      }
    }
  }

  /** `RemoveFirst` agrees with cutting out the first index that holds `x`. */
  lemma {:induction false} RemoveFirstAt<T>(s: seq<T>, x: T, k: nat)
    requires k < |s| && s[k] == x && x !in s[..k]
    ensures RemoveFirst(s, x) == s[..k] + s[k + 1..]
  {
    if k > 0 {
      assert s[0] in s[..k];
      assert s[1..][..k - 1] == s[1..k];
      assert x !in s[1..][..k - 1];
      RemoveFirstAt(s[1..], x, k - 1);
      assert s[1..][k - 1 + 1..] == s[k + 1..];
      assert s[..k] == [s[0]] + s[1..k];
    }
  }

  /** Adding an absent element and then removing it gives back the list exactly. */
  lemma {:induction false} RemoveFirstAppended<T>(s: seq<T>, x: T)
    requires x !in s
    ensures RemoveFirst(s + [x], x) == s
  {
    RemoveFirstAt(s + [x], x, |s|);
    assert (s + [x])[..|s|] == s;
  }

  /** Adding an element and then removing it leaves the same elements, whatever was there before. */
  lemma RemoveFirstAppendedElements<T>(s: seq<T>, x: T)
    ensures multiset(RemoveFirst(s + [x], x)) == multiset(s)
  {
    assert x in s + [x];
    RemoveFirstElements(s + [x], x);
    assert multiset(s + [x]) == multiset(s) + multiset{x};
  }
}
