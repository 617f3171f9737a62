/** The JavaScript array operations the views are built from: `filter`, `slice`,
    `reverse` and a descending `sort`, each with what it guarantees. */
module Lists {
  import opened Base

  /** `s.filter(keep)`: the elements that pass, in their original order. */
  function Filter<T>(s: seq<T>, keep: T -> bool): (r: seq<T>)
    ensures |r| <= |s|
    ensures forall i :: 0 <= i < |r| ==> keep(r[i]) && r[i] in s
    ensures forall x :: x in s && keep(x) ==> x in r
    ensures multiset(r) <= multiset(s)
  {
    if s == [] then []
    else
      assert s == [s[0]] + s[1..];
      if keep(s[0]) then [s[0]] + Filter(s[1..], keep)
      else Filter(s[1..], keep)
  }

  /** Filtering distributes over concatenation (used to relate a list to a shorter one). */
  lemma {:induction false} FilterAppend<T>(a: seq<T>, b: seq<T>, keep: T -> bool)
    ensures Filter(a + b, keep) == Filter(a, keep) + Filter(b, keep)
  {
    if a == [] {
      assert a + b == b;
    } else {
      assert (a + b)[1..] == a[1..] + b;
      FilterAppend(a[1..], b, keep);
    }
  }

  /** Two tests that split every element between them split the list's length. */
  lemma {:induction false} FilterPartition<T>(s: seq<T>, f: T -> bool, g: T -> bool)
    requires forall x :: f(x) != g(x)
    ensures |Filter(s, f)| + |Filter(s, g)| == |s|
  {
    if s != [] {
      FilterPartition(s[1..], f, g);
    }
  }

  /** Three tests of which every element passes exactly one split the list's length. */
  lemma {:induction false} FilterPartition3<T>(s: seq<T>, f: T -> bool, g: T -> bool, h: T -> bool)
    requires forall x :: (f(x) || g(x) || h(x)) && !(f(x) && g(x)) && !(f(x) && h(x)) && !(g(x) && h(x))
    ensures |Filter(s, f)| + |Filter(s, g)| + |Filter(s, h)| == |s|
  {
    if s != [] {
      FilterPartition3(s[1..], f, g, h);
    }
  }

  /** A weaker test keeps at least as many elements. */
  lemma {:induction false} FilterMonotone<T>(s: seq<T>, f: T -> bool, g: T -> bool)
    requires forall x :: f(x) ==> g(x)
    ensures |Filter(s, f)| <= |Filter(s, g)|
  {
    if s != [] {
      FilterMonotone(s[1..], f, g);
    }
  }

  /** A filter that keeps everything is the identity. */
  lemma {:induction false} FilterKeepAll<T>(s: seq<T>, keep: T -> bool)
    requires forall i :: 0 <= i < |s| ==> keep(s[i])
    ensures Filter(s, keep) == s
  {
    if s != [] {
      FilterKeepAll(s[1..], keep);
    }
  }

  /** Filtering twice is filtering once by both tests. */
  lemma {:induction false} FilterFilter<T>(s: seq<T>, f: T -> bool, g: T -> bool, both: T -> bool)
    requires forall x :: both(x) == (f(x) && g(x))
    ensures Filter(Filter(s, f), g) == Filter(s, both)
  {
    if s != [] {
      FilterFilter(s[1..], f, g, both);
    }
  }

  /** The head of a filtered list is the first element of the list that passes. */
  lemma {:induction false} FilterHeadIsFirst<T>(s: seq<T>, keep: T -> bool)
    requires Filter(s, keep) != []
    ensures exists i :: 0 <= i < |s| && s[i] == Filter(s, keep)[0] && keep(s[i]) &&
                        forall j :: 0 <= j < i ==> !keep(s[j])
  {
    if !keep(s[0]) {
      FilterHeadIsFirst(s[1..], keep);
      var i :| 0 <= i < |s[1..]| && s[1..][i] == Filter(s[1..], keep)[0] && keep(s[1..][i]) &&
               forall j :: 0 <= j < i ==> !keep(s[1..][j]);
      assert s[i + 1] == s[1..][i];
      assert forall j :: 0 <= j < i + 1 ==> !keep(s[j]) by {
        forall j | 0 <= j < i + 1 ensures !keep(s[j]) {
          if j > 0 { assert s[j] == s[1..][j - 1]; }
        }
      }
    }
  }

  /** `s.reverse()`. */
  function Reverse<T>(s: seq<T>): (r: seq<T>)
    ensures |r| == |s|
    ensures forall i :: 0 <= i < |s| ==> r[i] == s[|s| - 1 - i]
  {
    if s == [] then [] else Reverse(s[1..]) + [s[0]]
  }

  /** `s.slice(0, n)`: the first n elements, or all of them when there are fewer. */
  function Take<T>(s: seq<T>, n: nat): (r: seq<T>)
    ensures |r| == Min(n, |s|)
    ensures r <= s
  {
    if n <= |s| then s[..n] else s
  }

  /** `s.slice(-n)` for n > 0: the last n elements, or all of them when there are fewer. */
  function Last<T>(s: seq<T>, n: nat): (r: seq<T>)
    ensures |r| == Min(n, |s|)
    ensures forall i :: 0 <= i < |r| ==> r[i] == s[|s| - |r| + i]
  {
    if n <= |s| then s[|s| - n..] else s
  }

  /** Ordered so that `key` never increases from one element to a later one. */
  ghost predicate NonIncreasing<T>(s: seq<T>, key: T -> int) {
    forall i, j :: 0 <= i < j < |s| ==> key(s[i]) >= key(s[j])
  }

  /** Places `x` before the first element whose key is not larger, so earlier
      elements stay ahead of later equal ones. */
  function Insert<T>(x: T, s: seq<T>, key: T -> int): (r: seq<T>)
    requires NonIncreasing(s, key)
    ensures NonIncreasing(r, key)
    ensures multiset(r) == multiset(s) + multiset{x}
    ensures |r| == |s| + 1
  {
    if s == [] || key(s[0]) <= key(x) then [x] + s
    else
      var rest := Insert(x, s[1..], key);
      assert s == [s[0]] + s[1..];
      HeadDominates(s[0], s[1..], x, rest, key);
      [s[0]] + rest
  }

  /** If `h` leads a non-increasing list and outranks `x`, it outranks every
      element of any rearrangement of the tail plus `x`. */
  lemma HeadDominates<T>(h: T, tail: seq<T>, x: T, rest: seq<T>, key: T -> int)
    requires NonIncreasing([h] + tail, key)
    requires key(h) > key(x)
    requires multiset(rest) == multiset(tail) + multiset{x}
    ensures forall i :: 0 <= i < |rest| ==> key(h) >= key(rest[i])
  {
    forall i | 0 <= i < |rest|
      ensures key(h) >= key(rest[i])
    {
      assert rest[i] in multiset(rest);
      if rest[i] != x {
        assert rest[i] in multiset(tail);
        var j :| 0 <= j < |tail| && tail[j] == rest[i];
        var whole := [h] + tail;
        assert whole[0] == h && whole[j + 1] == tail[j];
        assert key(whole[0]) >= key(whole[j + 1]);
      }
    }
  }

  /** `[...s].sort((a, b) => key(b) - key(a))`: a descending sort by `key`. */
  function SortDescending<T>(s: seq<T>, key: T -> int): (r: seq<T>)
    ensures NonIncreasing(r, key)
    ensures multiset(r) == multiset(s)
    ensures |r| == |s|
  {
    if s == [] then []
    else
      assert s == [s[0]] + s[1..];
      Insert(s[0], SortDescending(s[1..], key), key)
  }

  /** A prefix of a non-increasing list is non-increasing. */
  lemma TakeNonIncreasing<T>(s: seq<T>, n: nat, key: T -> int)
    requires NonIncreasing(s, key)
    ensures NonIncreasing(Take(s, n), key)
  {
  }

  /** A prefix of a permutation of `s` draws its elements from `s`, none more
      often than `s` holds it. */
  lemma TakeOfPermutationFrom<T>(s: seq<T>, sorted: seq<T>, n: nat)
    requires multiset(sorted) == multiset(s)
    ensures forall x :: x in Take(sorted, n) ==> x in s
    ensures multiset(Take(sorted, n)) <= multiset(s)
  {
    var k := |Take(sorted, n)|;
    assert sorted == Take(sorted, n) + sorted[k..];
    forall x | x in Take(sorted, n) ensures x in s {
      assert x in sorted;
      assert x in multiset(sorted);
    }
  }

  /** The first n of a descending sort are the top n: every element left out ranks
      no higher than the last one kept. */
  lemma TakeOfSortedIsTop<T>(s: seq<T>, sorted: seq<T>, n: nat, key: T -> int)
    requires NonIncreasing(sorted, key) && multiset(sorted) == multiset(s) && n > 0
    ensures var top := Take(sorted, n);
            forall x :: x in s ==> x in top || (|top| > 0 && key(x) <= key(top[|top| - 1]))
  {
    var top := Take(sorted, n);
    forall x | x in s
      ensures x in top || (|top| > 0 && key(x) <= key(top[|top| - 1]))
    {
      assert x in multiset(s);
      assert x in multiset(sorted);
      var i :| 0 <= i < |sorted| && sorted[i] == x;
      if i < |top| {
        assert top[i] == x;
      } else {
        assert |top| == n;
        assert top[n - 1] == sorted[n - 1];
      }
    }
  }
}
