/** Python's `sorted`: a stable insertion sort over any total preorder. */
module StableSort {

  ghost predicate TotalPreorder<T(!new)>(leq: (T, T) -> bool) {
    && (forall a, b :: leq(a, b) || leq(b, a))
    && (forall a, b, c :: leq(a, b) && leq(b, c) ==> leq(a, c))
  }

  /** Into an ascending list, after everything that does not exceed `x`. */
  function Insert<T>(x: T, sorted: seq<T>, leq: (T, T) -> bool): (r: seq<T>)
    ensures |r| == |sorted| + 1
  {
    if sorted == [] then [x]
    else if leq(sorted[0], x) then [sorted[0]] + Insert(x, sorted[1..], leq)
    else [x] + sorted
  }

  function Sorted<T>(s: seq<T>, leq: (T, T) -> bool): (r: seq<T>)
    ensures |r| == |s|
  {
    if s == [] then [] else Insert(s[|s| - 1], Sorted(s[..|s| - 1], leq), leq)
  }

  predicate Ascending<T>(s: seq<T>, leq: (T, T) -> bool) {
    forall i, j | 0 <= i < j < |s| :: leq(s[i], s[j])
  }

  lemma {:induction false} InsertAdds<T(!new)>(x: T, sorted: seq<T>, leq: (T, T) -> bool)
    ensures multiset(Insert(x, sorted, leq)) == multiset(sorted) + multiset{x}
  {
    if sorted != [] {
      assert sorted == [sorted[0]] + sorted[1..];
      if leq(sorted[0], x) {
        InsertAdds(x, sorted[1..], leq);
      }
    }
  }

  lemma {:induction false} InsertAscends<T(!new)>(x: T, sorted: seq<T>, leq: (T, T) -> bool)
    requires TotalPreorder(leq) && Ascending(sorted, leq)
    ensures Ascending(Insert(x, sorted, leq), leq)
  {
    if sorted != [] {
      assert sorted == [sorted[0]] + sorted[1..];
      if leq(sorted[0], x) {
        InsertAscends(x, sorted[1..], leq);
        InsertAdds(x, sorted[1..], leq);
        var rest := Insert(x, sorted[1..], leq);
        forall i | 0 <= i < |rest| ensures leq(sorted[0], rest[i]) {
          assert rest[i] in multiset(rest);
          assert rest[i] in sorted[1..] || rest[i] == x;
        }
      } else {
        assert leq(x, sorted[0]);
      }
    }
  }

  lemma {:induction false} SortedSorts<T(!new)>(s: seq<T>, leq: (T, T) -> bool)
    requires TotalPreorder(leq)
    ensures Ascending(Sorted(s, leq), leq)
    ensures multiset(Sorted(s, leq)) == multiset(s)
  {
    if s != [] {
      var init := s[..|s| - 1];
      assert s == init + [s[|s| - 1]];
      SortedSorts(init, leq);
      InsertAscends(s[|s| - 1], Sorted(init, leq), leq);
      InsertAdds(s[|s| - 1], Sorted(init, leq), leq);
    }
  }

  /** No item exceeds the one at `k`, and none after it equals it. */
  ghost predicate LatestGreatest<T(!new)>(s: seq<T>, leq: (T, T) -> bool, k: int) {
    && 0 <= k < |s|
    && (forall j | 0 <= j < |s| :: leq(s[j], s[k]))
    && (forall j | k < j < |s| :: !leq(s[k], s[j]))
  }

  lemma {:induction false} InsertLast<T(!new)>(x: T, sorted: seq<T>, leq: (T, T) -> bool)
    requires TotalPreorder(leq) && Ascending(sorted, leq) && sorted != []
    ensures var r, last := Insert(x, sorted, leq), sorted[|sorted| - 1];
            r[|r| - 1] == if leq(last, x) then x else last
  {
    if leq(sorted[0], x) {
      if |sorted| > 1 {
        InsertLast(x, sorted[1..], leq);
      }
    } else {
      assert |sorted| > 1 ==> leq(sorted[0], sorted[|sorted| - 1]);
    }
  }

  lemma LatestGreatestNext<T(!new)>(init: seq<T>, x: T, leq: (T, T) -> bool, k: nat)
    requires TotalPreorder(leq) && LatestGreatest(init, leq, k)
    ensures LatestGreatest(init + [x], leq, if leq(init[k], x) then |init| else k)
  {
    var s := init + [x];
    assert leq(x, x);
    forall j | 0 <= j < |s| ensures leq(s[j], if leq(init[k], x) then x else init[k]) {
      assert j < |init| ==> leq(init[j], init[k]);
    }
  }

  /** The last item of the sorted list is the latest of the greatest items. */
  lemma {:induction false} LastIsGreatest<T(!new)>(s: seq<T>, leq: (T, T) -> bool)
    requires TotalPreorder(leq) && s != []
    ensures exists k :: LatestGreatest(s, leq, k) && Sorted(s, leq)[|s| - 1] == s[k]
  {
    var init, x := s[..|s| - 1], s[|s| - 1];
    assert s == init + [x];
    if init == [] {
      assert leq(x, x);
      assert LatestGreatest(s, leq, 0);
    } else {
      LastIsGreatest(init, leq);
      var k :| LatestGreatest(init, leq, k) && Sorted(init, leq)[|init| - 1] == init[k];
      SortedSorts(init, leq);
      InsertLast(x, Sorted(init, leq), leq);
      LatestGreatestNext(init, x, leq, k);
    }
  }
}
