/**
 * Sequence helpers shared by the model: order-preserving filters, the
 * "collect, then `list.remove` each collected item" idiom of the Python
 * source, flattening, and substring containment (Python's `in` on strings).
 */
module Lists {

  /** Order-preserving filter (a Python list comprehension with an `if`). */
  function Filter<T(==)>(s: seq<T>, p: T -> bool): (r: seq<T>)
    ensures |r| <= |s|
    ensures forall i :: 0 <= i < |r| ==> r[i] in s && p(r[i])
    ensures forall i :: 0 <= i < |s| && p(s[i]) ==> s[i] in r
  {
    if s == [] then [] else (if p(s[0]) then [s[0]] else []) + Filter(s[1..], p)
  }

  /** A filter every element passes keeps the whole sequence. */
  lemma {:induction false} FilterKeepsAll<T>(s: seq<T>, p: T -> bool)
    requires forall i :: 0 <= i < |s| ==> p(s[i])
    ensures Filter(s, p) == s
  {
    if s != [] {
      FilterKeepsAll(s[1..], p);
    }
  }

  /** Python's `list.remove(x)`: drops the first occurrence of `x`, if any. */
  function RemoveFirst<T(==)>(s: seq<T>, x: T): (r: seq<T>)
    ensures x in s ==> |r| == |s| - 1
    ensures x !in s ==> r == s
    ensures forall i :: 0 <= i < |r| ==> r[i] in s
  {
    if s == [] then []
    else if s[0] == x then s[1..]
    else [s[0]] + RemoveFirst(s[1..], x)
  }

  /** `for item in items: s.remove(item)`, skipping items no longer present. */
  function RemoveEach<T(==)>(s: seq<T>, items: seq<T>): (r: seq<T>)
    ensures |r| <= |s|
    ensures forall i :: 0 <= i < |r| ==> r[i] in s
    decreases |items|
  {
    if items == [] then s else RemoveEach(RemoveFirst(s, items[0]), items[1..])
  }

  lemma {:induction false} RemoveEachOfAbsentHead<T>(x: T, t: seq<T>, items: seq<T>)
    requires x !in items
    ensures RemoveEach([x] + t, items) == [x] + RemoveEach(t, items)
    decreases |items|
  {
    if items != [] {
      assert ([x] + t)[0] == x && ([x] + t)[1..] == t;
      assert RemoveFirst([x] + t, items[0]) == [x] + RemoveFirst(t, items[0]);
      RemoveEachOfAbsentHead(x, RemoveFirst(t, items[0]), items[1..]);
    }
  }

  /**
   * Removing, one by one, every element that a predicate selects removes
   * exactly those elements and keeps the others in order, even when the
   * list holds duplicates.
   */
  lemma {:induction false} RemoveSelectedIsFilter<T>(s: seq<T>, p: T -> bool)
    ensures RemoveEach(s, Filter(s, p)) == Filter(s, Negate(p))
  {
    if s != [] {
      var x, t := s[0], s[1..];
      assert s == [x] + t;
      RemoveSelectedIsFilter(t, p);
      if p(x) {
        assert Filter(s, p) == [x] + Filter(t, p);
        assert RemoveFirst(s, x) == t;
      } else {
        assert Filter(s, p) == Filter(t, p);
        assert x !in Filter(t, p);
        RemoveEachOfAbsentHead(x, t, Filter(t, p));
      }
    }
  }

  /** In-order concatenation of a list of lists. */
  function Flatten<T>(ss: seq<seq<T>>): seq<T>
  {
    if ss == [] then [] else ss[0] + Flatten(ss[1..])
  }

  function SumOfLengths<T>(ss: seq<seq<T>>): nat
  {
    if ss == [] then 0 else |ss[0]| + SumOfLengths(ss[1..])
  }

  lemma {:induction false} FlattenLength<T>(ss: seq<seq<T>>)
    ensures |Flatten(ss)| == SumOfLengths(ss)
  {
    if ss != [] { FlattenLength(ss[1..]); }
  }

  lemma {:induction false} FlattenAppend<T>(a: seq<seq<T>>, b: seq<seq<T>>)
    ensures Flatten(a + b) == Flatten(a) + Flatten(b)
  {
    if a == [] {
      assert a + b == b;
    } else {
      assert (a + b)[0] == a[0] && (a + b)[1..] == a[1..] + b;
      FlattenAppend(a[1..], b);
    }
  }

  lemma FlattenSnoc<T>(ss: seq<seq<T>>, r: seq<T>)
    ensures Flatten(ss + [r]) == Flatten(ss) + r
  {
    FlattenAppend(ss, [r]);
    assert Flatten([r]) == r + Flatten([r][1..]);
    assert [r][1..] == [];
  }

  /** An element of one of the lists is an element of their concatenation. */
  lemma {:induction false} InFlatten<T>(ss: seq<seq<T>>, k: int, x: T)
    requires 0 <= k < |ss| && x in ss[k]
    ensures x in Flatten(ss)
  {
    if k > 0 {
      InFlatten(ss[1..], k - 1, x);
    }
  }

  /** An element of the concatenation comes from one of the lists. */
  lemma {:induction false} FlattenMember<T>(ss: seq<seq<T>>, x: T)
    requires x in Flatten(ss)
    ensures exists k :: 0 <= k < |ss| && x in ss[k]
  {
    if x !in ss[0] {
      FlattenMember(ss[1..], x);
      var k :| 0 <= k < |ss[1..]| && x in ss[1..][k];
      assert x in ss[k + 1];
    }
  }

  /** Python's `needle in haystack` on strings. */
  predicate Contains(haystack: string, needle: string)
  {
    exists i :: 0 <= i <= |haystack| - |needle| && OccursAt(haystack, needle, i)
  }

  predicate OccursAt(haystack: string, needle: string, i: int)
  {
    0 <= i <= |haystack| - |needle| && haystack[i..i + |needle|] == needle
  }

  /** Decides `Contains` by scanning the start positions from the left. */
  function ContainsFrom(haystack: string, needle: string, i: nat): (b: bool)
    requires i <= |haystack|
    ensures b <==> exists k :: i <= k && OccursAt(haystack, needle, k)
    decreases |haystack| - i
  {
    if i + |needle| > |haystack| then false
    else if OccursAt(haystack, needle, i) then true
    else
      var b := ContainsFrom(haystack, needle, i + 1);
      assert forall k :: i <= k && OccursAt(haystack, needle, k) ==> k == i || i + 1 <= k;
      b
  }

  function HasSubstring(haystack: string, needle: string): (b: bool)
    ensures b <==> Contains(haystack, needle)
  {
    ContainsFrom(haystack, needle, 0)
  }

  /** The complement of a predicate, as the comprehension `if not p(x)` uses it. */
  function Negate<T>(p: T -> bool): T -> bool
  {
    x => !p(x)
  }

  predicate NoDuplicates<T(==)>(s: seq<T>)
  {
    forall i, j :: 0 <= i < j < |s| ==> s[i] != s[j]
  }

  /** Two repeat-free sequences with no element in common concatenate to a repeat-free one. */
  lemma NoDuplicatesAppend<T>(a: seq<T>, b: seq<T>)
    requires NoDuplicates(a) && NoDuplicates(b)
    requires forall i, j :: 0 <= i < |a| && 0 <= j < |b| ==> a[i] != b[j]
    ensures NoDuplicates(a + b)
  {
    var c := a + b;
    forall i, j | 0 <= i < j < |c| ensures c[i] != c[j] {
      if j < |a| {
        assert c[i] == a[i] && c[j] == a[j];
      } else if i >= |a| {
        assert c[i] == b[i - |a|] && c[j] == b[j - |a|];
      } else {
        assert c[i] == a[i] && c[j] == b[j - |a|];
      }
    }
  }

  lemma {:induction false} RemoveFirstKeepsNoDuplicates<T>(s: seq<T>, y: T)
    requires NoDuplicates(s)
    ensures NoDuplicates(RemoveFirst(s, y)) && y !in RemoveFirst(s, y)
  {
    if s != [] && s[0] != y {
      assert NoDuplicates(s[1..]);
      RemoveFirstKeepsNoDuplicates(s[1..], y);
      assert s[0] !in s[1..];
      var r := RemoveFirst(s, y);
      assert r == [s[0]] + RemoveFirst(s[1..], y);
      forall i, j | 0 <= i < j < |r| ensures r[i] != r[j] {
        if i == 0 { assert r[j] == RemoveFirst(s[1..], y)[j - 1]; }
      }
    } else if s != [] {
      assert forall k :: 0 < k < |s| ==> s[k] != s[0];
    }
  }

  /** On a list without duplicates, every item handed to the removals is gone afterwards. */
  lemma {:induction false} RemoveEachRemovesItems<T>(s: seq<T>, items: seq<T>, x: T)
    requires NoDuplicates(s) && x in items
    ensures x !in RemoveEach(s, items)
    decreases |items|
  {
    RemoveFirstKeepsNoDuplicates(s, items[0]);
    if items[0] == x {
      var r := RemoveEach(RemoveFirst(s, x), items[1..]);
      assert forall i :: 0 <= i < |r| ==> r[i] in RemoveFirst(s, x);
    } else {
      RemoveEachRemovesItems(RemoveFirst(s, items[0]), items[1..], x);
    }
  }

  /** An element that is never handed to the removals stays. */
  lemma {:induction false} RemoveEachKeepsOthers<T>(s: seq<T>, items: seq<T>, x: T)
    requires x in s && x !in items
    ensures x in RemoveEach(s, items)
    decreases |items|
  {
    if items != [] {
      RemoveFirstKeepsOthers(s, items[0], x);
      RemoveEachKeepsOthers(RemoveFirst(s, items[0]), items[1..], x);
    }
  }

  lemma {:induction false} RemoveFirstKeepsOthers<T>(s: seq<T>, y: T, x: T)
    requires x in s && x != y
    ensures x in RemoveFirst(s, y)
  {
    if s[0] != y && s[0] != x {
      RemoveFirstKeepsOthers(s[1..], y, x);
    }
  }

  /** Filtering a list extended at the back. */
  lemma {:induction false} FilterSnoc<T>(s: seq<T>, x: T, p: T -> bool)
    ensures Filter(s + [x], p) == Filter(s, p) + (if p(x) then [x] else [])
  {
    if s == [] {
      assert [] + [x] == [x];
    } else {
      assert (s + [x])[0] == s[0] && (s + [x])[1..] == s[1..] + [x];
      FilterSnoc(s[1..], x, p);
    }
  }
}
