/** `Array.prototype.sort` with a comparator of the form
    `(a, b) => key(b) - key(a)`: a stable sort into non-increasing key order.
    Both sorts of the core (category totals by value, transactions by date)
    have this shape; it is modelled as a stable insertion sort. */
module Sorting {

  /** Keys never increase from left to right. */
  predicate NonIncreasing<T>(s: seq<T>, key: T -> int) {
    forall i, j :: 0 <= i < j < |s| ==> key(s[i]) >= key(s[j])
  }

  /** No two elements share a name under `name`. */
  predicate DistinctBy<T>(s: seq<T>, name: T -> string) {
    forall i, j :: 0 <= i < j < |s| ==> name(s[i]) != name(s[j])
  }

  /** Puts `x` after every element whose key is at least `key(x)`. */
  function Insert<T>(s: seq<T>, x: T, key: T -> int): (r: seq<T>)
    requires NonIncreasing(s, key)
    ensures NonIncreasing(r, key)
    ensures multiset(r) == multiset(s) + multiset{x}
    ensures |r| == |s| + 1
  {
    if |s| == 0 then [x]
    else if key(s[0]) < key(x) then [x] + s
    else
      var rest := Insert(s[1..], x, key);
      assert s == [s[0]] + s[1..];
      HeadDominates(s, x, key, rest);
      [s[0]] + rest
  }

  /** The head of a sorted list bounds every element of the list built by
      inserting a no-larger element into its tail. */
  lemma HeadDominates<T>(s: seq<T>, x: T, key: T -> int, rest: seq<T>)
    requires |s| > 0 && NonIncreasing(s, key) && key(s[0]) >= key(x)
    requires multiset(rest) == multiset(s[1..]) + multiset{x}
    ensures forall j :: 0 <= j < |rest| ==> key(s[0]) >= key(rest[j])
  {
    forall j | 0 <= j < |rest| ensures key(s[0]) >= key(rest[j]) {
      assert rest[j] in multiset(rest);
      if rest[j] != x {
        assert rest[j] in multiset(s[1..]);
        var k :| 0 <= k < |s[1..]| && s[1..][k] == rest[j];
        assert s[k + 1] == rest[j];
      }
    }
  }

  /** The stable sort: insert each element, left to right, into the sorted
      prefix. */
  function SortByKeyDesc<T>(s: seq<T>, key: T -> int): (r: seq<T>)
    ensures NonIncreasing(r, key)
    ensures multiset(r) == multiset(s)
    ensures |r| == |s|
  {
    if |s| == 0 then []
    else
      var init := s[..|s| - 1];
      assert s == init + [s[|s| - 1]];
      Insert(SortByKeyDesc(init, key), s[|s| - 1], key)
  }

  /** Inserting an element whose name is new keeps names distinct. */
  lemma {:induction false} InsertKeepsDistinct<T>(s: seq<T>, x: T, key: T -> int, name: T -> string)
    requires NonIncreasing(s, key) && DistinctBy(s, name)
    requires forall i :: 0 <= i < |s| ==> name(s[i]) != name(x)
    ensures DistinctBy(Insert(s, x, key), name)
  {
    if |s| > 0 && key(s[0]) >= key(x) {
      var rest := Insert(s[1..], x, key);
      InsertKeepsDistinct(s[1..], x, key, name);
      forall j | 0 <= j < |rest| ensures name(rest[j]) != name(s[0]) {
        assert rest[j] in multiset(rest);
        assert rest[j] in multiset(s[1..]) || rest[j] == x;
        if rest[j] != x {
          var k :| 0 <= k < |s[1..]| && s[1..][k] == rest[j];
          assert s[k + 1] == rest[j];
        }
      }
    }
  }

  /** Sorting keeps names distinct. */
  lemma {:induction false} SortKeepsDistinct<T>(s: seq<T>, key: T -> int, name: T -> string)
    requires DistinctBy(s, name)
    ensures DistinctBy(SortByKeyDesc(s, key), name)
  {
    if |s| > 0 {
      var init, last := s[..|s| - 1], s[|s| - 1];
      var sorted := SortByKeyDesc(init, key);
      SortKeepsDistinct(init, key, name);
      forall i | 0 <= i < |sorted| ensures name(sorted[i]) != name(last) {
        assert sorted[i] in multiset(sorted);
        var k :| 0 <= k < |init| && init[k] == sorted[i];
        assert s[k] == sorted[i];
      }
      InsertKeepsDistinct(sorted, last, key, name);
    }
  }
}
