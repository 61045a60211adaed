/** Python's stable `sorted`, specified by insertion, for any order of the elements. */
module Sorting {
  import opened Common

  /** Inserts behind every element that x is not less than. */
  function Insert<T>(s: seq<T>, x: T, less: (T, T) -> bool): (r: seq<T>)
    ensures |r| == |s| + 1
  {
    if s == [] || !less(x, Last(s)) then s + [x] else Insert(Front(s), x, less) + [Last(s)]
  }

  function Sort<T>(s: seq<T>, less: (T, T) -> bool): (r: seq<T>)
    ensures |r| == |s|
  {
    if s == [] then [] else Insert(Sort(Front(s), less), Last(s), less)
  }

  /** No element is less than an earlier one. */
  ghost predicate Ordered<T>(s: seq<T>, less: (T, T) -> bool) {
    forall i, j :: 0 <= i < j < |s| ==> !less(s[j], s[i])
  }

  /** Asymmetric, with a transitive complement: what comparing keys of a total order gives. */
  ghost predicate WeakOrder<T(!new)>(less: (T, T) -> bool) {
    && (forall a, b :: less(a, b) ==> !less(b, a))
    && (forall a, b, c :: !less(b, a) && !less(c, b) ==> !less(c, a))
  }

  lemma {:induction false} InsertKeeps<T>(s: seq<T>, x: T, less: (T, T) -> bool)
    ensures multiset(Insert(s, x, less)) == multiset(s) + multiset{x}
  {
    if s != [] && less(x, Last(s)) {
      InsertKeeps(Front(s), x, less);
      assert s == Front(s) + [Last(s)];
    }
  }

  lemma {:induction false} SortKeeps<T>(s: seq<T>, less: (T, T) -> bool)
    ensures multiset(Sort(s, less)) == multiset(s)
  {
    if s == [] {
    } else {
      SortKeeps(Front(s), less);
      InsertKeeps(Sort(Front(s), less), Last(s), less);
      assert s == Front(s) + [Last(s)];
    }
  }

  lemma {:induction false} InsertOrders<T(!new)>(s: seq<T>, x: T, less: (T, T) -> bool)
    requires WeakOrder(less) && Ordered(s, less)
    ensures Ordered(Insert(s, x, less), less)
    ensures forall i :: 0 <= i <= |s| ==> Insert(s, x, less)[i] == x || Insert(s, x, less)[i] in s
  {
    if s != [] && less(x, Last(s)) {
      InsertOrders(Front(s), x, less);
      var rest := Insert(Front(s), x, less);
      forall i | 0 <= i < |rest| ensures !less(Last(s), rest[i]) {
        if rest[i] != x {
          assert rest[i] in Front(s);
        }
      }
    }
  }

  lemma {:induction false} SortOrders<T(!new)>(s: seq<T>, less: (T, T) -> bool)
    requires WeakOrder(less)
    ensures Ordered(Sort(s, less), less)
  {
    if s == [] {
    } else {
      SortOrders(Front(s), less);
      InsertOrders(Sort(Front(s), less), Last(s), less);
    }
  }

  /** The members of a class of elements, in order. */
  function Among<T>(s: seq<T>, same: T -> bool): seq<T> {
    if s == [] then [] else Among(Front(s), same) + (if same(Last(s)) then [Last(s)] else [])
  }

  lemma {:induction false} AmongMembers<T>(s: seq<T>, same: T -> bool)
    ensures forall x :: x in Among(s, same) <==> x in s && same(x)
  {
    if s == [] {
    } else {
      AmongMembers(Front(s), same);
      assert s == Front(s) + [Last(s)];
    }
  }

  /** No member of the class is less than an earlier one. */
  ghost predicate ClassInOrder<T>(s: seq<T>, same: T -> bool, less: (T, T) -> bool) {
    forall i, j :: 0 <= i < j < |s| && same(s[i]) && same(s[j]) ==> !less(s[j], s[i])
  }

  lemma {:induction false} OrderedAppend<T>(a: seq<T>, x: T, less: (T, T) -> bool)
    ensures Ordered(a + [x], less) <==> Ordered(a, less) && forall y :: y in a ==> !less(x, y)
  {
    var b := a + [x];
    assert forall i :: 0 <= i < |a| ==> b[i] == a[i];
    assert b[|a|] == x;
  }

  lemma {:induction false} ClassAppend<T>(a: seq<T>, x: T, same: T -> bool, less: (T, T) -> bool)
    ensures ClassInOrder(a + [x], same, less) <==>
            ClassInOrder(a, same, less) && forall y :: y in a && same(y) && same(x) ==> !less(x, y)
  {
    var b := a + [x];
    assert forall i :: 0 <= i < |a| ==> b[i] == a[i];
    assert b[|a|] == x;
  }

  lemma {:induction false} ClassInOrderIff<T>(s: seq<T>, same: T -> bool, less: (T, T) -> bool)
    ensures ClassInOrder(s, same, less) <==> Ordered(Among(s, same), less)
  {
    if s == [] {
    } else {
      var f, x := Front(s), Last(s);
      var members := Among(f, same);
      ClassInOrderIff(f, same, less);
      AmongMembers(f, same);
      OrderedAppend(members, x, less);
      ClassAppend(f, x, same, less);
      assert s == f + [x];
      if same(x) {
        assert ClassInOrder(s, same, less) <==>
            ClassInOrder(f, same, less) && forall y :: y in f && same(y) ==> !less(x, y);
        assert Ordered(members + [x], less) <==> Ordered(members, less) && forall y :: y in members ==> !less(x, y);
        assert (forall y :: y in f && same(y) ==> !less(x, y)) <==> forall y :: y in members ==> !less(x, y);
      } else {
        assert Among(s, same) == members;
      }
    }
  }

  lemma {:induction false} InsertBehindClass<T>(s: seq<T>, x: T, same: T -> bool, less: (T, T) -> bool)
    requires same(x) ==> forall y :: y in s && same(y) ==> !less(x, y)
    ensures Among(Insert(s, x, less), same) == Among(s, same) + (if same(x) then [x] else [])
  {
    if s != [] && less(x, Last(s)) {
      assert s == Front(s) + [Last(s)];
      InsertBehindClass(Front(s), x, same, less);
      if same(Last(s)) {
        assert Among(s, same) + [] == Among(s, same);
      }
    } else {
      assert Front(s + [x]) == s;
    }
  }

  lemma {:induction false} SortKeepsClass<T>(s: seq<T>, same: T -> bool, less: (T, T) -> bool)
    requires ClassInOrder(s, same, less)
    ensures Among(Sort(s, less), same) == Among(s, same)
  {
    if s == [] {
    } else {
      SortKeepsClass(Front(s), same, less);
      forall y | y in Sort(Front(s), less) && same(y) && same(Last(s)) ensures !less(Last(s), y) {
        SortHolds(Front(s), less, y);
        var i :| 0 <= i < |s| - 1 && Front(s)[i] == y;
      }
      InsertBehindClass(Sort(Front(s), less), Last(s), same, less);
    }
  }

  /** The sort leaves the members of a class in their order if and only if they were in order: it is
      stable for a class that ties, and moves any other. */
  lemma {:induction false} SortKeepsClassIff<T(!new)>(s: seq<T>, same: T -> bool, less: (T, T) -> bool)
    requires WeakOrder(less)
    ensures Among(Sort(s, less), same) == Among(s, same) <==> ClassInOrder(s, same, less)
  {
    if ClassInOrder(s, same, less) {
      SortKeepsClass(s, same, less);
    }
    SortOrders(s, less);
    ClassInOrderIff(Sort(s, less), same, less);
    ClassInOrderIff(s, same, less);
  }

  // Where two elements end up

  ghost predicate Before<T>(s: seq<T>, x: T, y: T) {
    exists p, q :: 0 <= p < q < |s| && s[p] == x && s[q] == y
  }

  lemma {:induction false} BeforeAppend<T>(s: seq<T>, z: T, x: T, y: T)
    ensures Before(s + [z], x, y) <==> Before(s, x, y) || (x in s && y == z)
  {
    var t := s + [z];
    assert forall i :: 0 <= i < |s| ==> t[i] == s[i];
    if x in s && y == z {
      var p :| 0 <= p < |s| && s[p] == x;
      assert t[p] == x && t[|s|] == y;
    }
    if Before(s, x, y) {
      var p, q :| 0 <= p < q < |s| && s[p] == x && s[q] == y;
      assert t[p] == x && t[q] == y;
    }
  }

  lemma {:induction false} InsertHolds<T>(s: seq<T>, x: T, less: (T, T) -> bool, w: T)
    ensures w in Insert(s, x, less) <==> w in s || w == x
  {
    InsertKeeps(s, x, less);
    assert w in multiset(Insert(s, x, less)) <==> w in multiset(s) + multiset{x};
    assert w in Insert(s, x, less) <==> w in multiset(Insert(s, x, less));
  }

  lemma {:induction false} SortHolds<T>(s: seq<T>, less: (T, T) -> bool, w: T)
    ensures w in Sort(s, less) <==> w in s
  {
    SortKeeps(s, less);
    assert w in multiset(Sort(s, less)) <==> w in multiset(s);
    assert w in Sort(s, less) <==> w in multiset(Sort(s, less));
  }

  /** An inserted element lands behind what it is not less than, and disturbs no other order. */
  lemma {:induction false} InsertPlaces<T(!new)>(s: seq<T>, x: T, less: (T, T) -> bool, y: T, z: T)
    requires WeakOrder(less) && Ordered(s, less) && x !in s
    ensures y != x && z != x ==> (Before(Insert(s, x, less), y, z) <==> Before(s, y, z))
    ensures y in s ==> (Before(Insert(s, x, less), x, y) <==> less(x, y))
    ensures y in s ==> (Before(Insert(s, x, less), y, x) <==> !less(x, y))
  {
    if s == [] || !less(x, Last(s)) {
      BeforeAppend(s, x, y, z);
      BeforeAppend(s, x, x, y);
      BeforeAppend(s, x, y, x);
      if y in s {
        var p :| 0 <= p < |s| && s[p] == y;
        assert p < |s| - 1 ==> !less(Last(s), y);
      }
    } else {
      var rest := Insert(Front(s), x, less);
      assert s == Front(s) + [Last(s)];
      InsertPlaces(Front(s), x, less, y, z);
      InsertHolds(Front(s), x, less, y);
      InsertHolds(Front(s), x, less, x);
      BeforeAppend(rest, Last(s), y, z);
      BeforeAppend(rest, Last(s), x, y);
      BeforeAppend(rest, Last(s), y, x);
      BeforeAppend(Front(s), Last(s), y, z);
    }
  }

  /** The last element is inserted into the sorted rest. */
  lemma {:induction false} LastPlaced<T(!new)>(s: seq<T>, less: (T, T) -> bool, y: T, z: T)
    requires WeakOrder(less) && s != [] && y in Front(s) && Last(s) !in Front(s)
    ensures z != Last(s) ==> (Before(Sort(s, less), y, z) <==> Before(Sort(Front(s), less), y, z))
    ensures Before(Sort(s, less), Last(s), y) <==> less(Last(s), y)
    ensures Before(Sort(s, less), y, Last(s)) <==> !less(Last(s), y)
  {
    SortOrders(Front(s), less);
    SortHolds(Front(s), less, y);
    SortHolds(Front(s), less, Last(s));
    InsertPlaces(Sort(Front(s), less), Last(s), less, y, z);
  }

  /** Of two elements of a sequence without repetitions the sort puts first the lesser one, and the
      one that came first when neither is less. */
  lemma {:induction false} SortPlaces<T(!new)>(s: seq<T>, less: (T, T) -> bool, i: nat, j: nat)
    requires WeakOrder(less) && Distinct(s) && i < |s| && j < |s| && i != j
    ensures Before(Sort(s, less), s[i], s[j]) <==> less(s[i], s[j]) || (!less(s[j], s[i]) && i < j)
  {
    var n := |s| - 1;
    assert forall k :: 0 <= k < n ==> Front(s)[k] == s[k] && s[k] in Front(s);
    assert Last(s) !in Front(s);
    if i < n && j < n {
      SortPlaces(Front(s), less, i, j);
      LastPlaced(s, less, s[i], s[j]);
    } else {
      LastPlaced(s, less, if i == n then s[j] else s[i], Last(s));
    }
  }
}
