/** Wrappers and sequence facts shared by every component of the model. */
module Common {

  datatype Option<+T> = None | Some(value: T)

  datatype Result<+T, +E> = Ok(value: T) | Err(error: E)

  function Max(a: int, b: int): int {
    if a > b then a else b
  }

  ghost predicate Distinct<T>(s: seq<T>) {
    forall i, j :: 0 <= i < j < |s| ==> s[i] != s[j]
  }

  /** The first |s| - 1 elements, for recursion that follows a loop over s. */
  function Front<T>(s: seq<T>): seq<T>
    requires |s| > 0
  {
    s[..|s| - 1]
  }

  function Last<T>(s: seq<T>): T
    requires |s| > 0
  {
    s[|s| - 1]
  }

  /** One loop step: the prefix of length k + 1 has front s[..k] and last element s[k]. */
  lemma {:induction false} PrefixStep<T>(s: seq<T>, k: nat)
    requires k < |s|
    ensures Front(s[..k + 1]) == s[..k] && Last(s[..k + 1]) == s[k]
  {
  }

  /** The position of the first element with key k, |s| if there is none: the lookup of a dict kept
      as a sequence in insertion order. */
  function Find<T, K(==)>(s: seq<T>, key: T -> K, k: K): (i: nat)
    ensures i <= |s| && (i < |s| ==> key(s[i]) == k)
    ensures forall j :: 0 <= j < i ==> key(s[j]) != k
  {
    if s == [] || key(s[0]) == k then 0 else 1 + Find(s[1..], key, k)
  }

  // Filtering loops

  /** f of the members of s that keep holds of, in order. */
  function Filter<S, T>(s: seq<S>, keep: S -> bool, f: S -> T): (r: seq<T>)
    ensures |r| <= |s|
  {
    if s == [] then []
    else Filter(Front(s), keep, f) + (if keep(Last(s)) then [f(Last(s))] else [])
  }

  function Itself<T>(x: T): T {
    x
  }

  /** The positions at which keep holds. */
  function KeptAt<S>(s: seq<S>, keep: S -> bool): (at: seq<nat>)
    ensures |at| <= |s|
  {
    if s == [] then []
    else KeptAt(Front(s), keep) + (if keep(Last(s)) then [|s| - 1] else [])
  }

  lemma {:induction false} KeptAtIncreases<S(!new)>(s: seq<S>, keep: S -> bool)
    ensures forall i :: 0 <= i < |KeptAt(s, keep)| ==> KeptAt(s, keep)[i] < |s|
    ensures forall i, j :: 0 <= i < j < |KeptAt(s, keep)| ==> KeptAt(s, keep)[i] < KeptAt(s, keep)[j]
  {
    if s == [] {
    } else {
      KeptAtIncreases(Front(s), keep);
    }
  }

  /** Which members those are: one for each position at which keep holds, in increasing order. */
  lemma {:induction false} FilterIs<S(!new), T>(s: seq<S>, keep: S -> bool, f: S -> T)
    ensures |KeptAt(s, keep)| == |Filter(s, keep, f)|
    ensures forall i :: 0 <= i < |KeptAt(s, keep)| ==>
              KeptAt(s, keep)[i] < |s| && Filter(s, keep, f)[i] == f(s[KeptAt(s, keep)[i]])
  {
    if s == [] {
    } else {
      FilterIs(Front(s), keep, f);
      var at := KeptAt(Front(s), keep);
      assert forall i :: 0 <= i < |at| ==> s[at[i]] == Front(s)[at[i]];
    }
  }

  lemma {:induction false} EveryKeptIsListed<S(!new)>(s: seq<S>, keep: S -> bool)
    ensures forall k: nat :: k in KeptAt(s, keep) <==> k < |s| && keep(s[k])
  {
    if s == [] {
    } else {
      EveryKeptIsListed(Front(s), keep);
      assert forall k :: 0 <= k < |s| - 1 ==> Front(s)[k] == s[k];
      assert s[|s| - 1] == Last(s);
    }
  }

  /** Which values they have. */
  lemma {:induction false} FilterMembers<S(!new), T(!new)>(s: seq<S>, keep: S -> bool, f: S -> T)
    ensures forall k :: 0 <= k < |s| && keep(s[k]) ==> f(s[k]) in Filter(s, keep, f)
    ensures forall y :: y in Filter(s, keep, f) ==> exists k :: 0 <= k < |s| && keep(s[k]) && y == f(s[k])
  {
    if s == [] {
    } else {
      FilterMembers(Front(s), keep, f);
      assert forall k :: 0 <= k < |s| - 1 ==> Front(s)[k] == s[k];
      assert s[|s| - 1] == Last(s);
    }
  }

  /** k is the last position of s at which keep holds. */
  ghost predicate LastKept<S(!new)>(k: nat, s: seq<S>, keep: S -> bool) {
    k < |s| && keep(s[k]) && forall j :: k < j < |s| ==> !keep(s[j])
  }

  lemma {:induction false} FilterLast<S(!new), T>(s: seq<S>, keep: S -> bool, f: S -> T) returns (k: nat)
    requires Filter(s, keep, f) != []
    ensures LastKept(k, s, keep) && Last(Filter(s, keep, f)) == f(s[k])
  {
    if keep(Last(s)) {
      k := |s| - 1;
    } else {
      k := FilterLast(Front(s), keep, f);
      assert forall j :: 0 <= j < |s| - 1 ==> Front(s)[j] == s[j];
    }
  }

  lemma {:induction false} FilterNone<S(!new), T>(s: seq<S>, keep: S -> bool, f: S -> T)
    ensures Filter(s, keep, f) == [] <==> forall k :: 0 <= k < |s| ==> !keep(s[k])
  {
    if s == [] {
    } else {
      FilterNone(Front(s), keep, f);
      assert forall k :: 0 <= k < |s| - 1 ==> Front(s)[k] == s[k];
      assert s[|s| - 1] == Last(s);
    }
  }
}
