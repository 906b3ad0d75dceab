/** Sequence operations the system relies on from its languages' libraries:
    Python `reversed`/`list.reverse`, and the stable sorts of JavaScript
    `Array.prototype.sort` and Python `list.sort(key=...)`, both stated as an
    insertion sort by an integer key. */
module Seqs {

  /* ---------------- reversal ---------------- */

  /** Python `list(reversed(s))` and `list.reverse()`: the element at index `i`
      comes from index `|s| - 1 - i`. */
  function Reverse<T>(s: seq<T>): (r: seq<T>)
    ensures |r| == |s|
  {
    seq(|s|, i requires 0 <= i < |s| => s[|s| - 1 - i])
  }

  /** Reversing is an involution. */
  lemma ReverseReverse<T>(s: seq<T>)
    ensures Reverse(Reverse(s)) == s
  {
  }

  /** Reversing a sequence extended at the end puts the new element in front. */
  lemma ReverseSnoc<T>(s: seq<T>, x: T)
    ensures Reverse(s + [x]) == [x] + Reverse(s)
  {
  }

  /* ---------------- stable sort by an integer key ---------------- */

  ghost predicate SortedBy<T>(s: seq<T>, key: T -> int)
  {
    forall i, j :: 0 <= i < j < |s| ==> key(s[i]) <= key(s[j])
  }

  /** The elements of `s` whose key is `k`, in their order in `s`. */
  function WithKey<T>(s: seq<T>, key: T -> int, k: int): seq<T>
  {
    if |s| == 0 then []
    else (if key(s[0]) == k then [s[0]] else []) + WithKey(s[1..], key, k)
  }

  /** Places `x` in front of the first element whose key is not smaller than its own. */
  function Insert<T>(x: T, s: seq<T>, key: T -> int): seq<T>
  {
    if |s| == 0 || key(x) <= key(s[0]) then [x] + s else [s[0]] + Insert(x, s[1..], key)
  }

  /** Stable sort by ascending key: equal keys keep their relative order. */
  function SortBy<T>(s: seq<T>, key: T -> int): seq<T>
  {
    if |s| == 0 then [] else Insert(s[0], SortBy(s[1..], key), key)
  }

  lemma {:induction false} InsertSorted<T>(x: T, s: seq<T>, key: T -> int)
    requires SortedBy(s, key)
    ensures SortedBy(Insert(x, s, key), key)
    ensures multiset(Insert(x, s, key)) == multiset(s) + multiset{x}
    ensures |Insert(x, s, key)| == |s| + 1
  {
    if |s| > 0 && key(x) > key(s[0]) {
      InsertSorted(x, s[1..], key);
      InsertAbove(x, s[1..], key, key(s[0]));
      assert s == [s[0]] + s[1..];
    }
  }

  /** Inserting keeps a lower bound that `x` and every element of `s` respect. */
  lemma {:induction false} InsertAbove<T>(x: T, s: seq<T>, key: T -> int, lo: int)
    requires lo <= key(x) && forall i :: 0 <= i < |s| ==> lo <= key(s[i])
    ensures forall i :: 0 <= i < |Insert(x, s, key)| ==> lo <= key(Insert(x, s, key)[i])
  {
    if |s| > 0 && key(x) > key(s[0]) {
      InsertAbove(x, s[1..], key, lo);
    }
  }

  lemma {:induction false} InsertWithKey<T>(x: T, s: seq<T>, key: T -> int, k: int)
    ensures WithKey(Insert(x, s, key), key, k)
         == (if key(x) == k then [x] else []) + WithKey(s, key, k)
  {
    if |s| > 0 && key(x) > key(s[0]) {
      InsertWithKey(x, s[1..], key, k);
      var r := [s[0]] + Insert(x, s[1..], key);
      assert r[1..] == Insert(x, s[1..], key);
      if key(s[0]) == k {
        assert key(x) != k;
      }
    } else {
      assert ([x] + s)[1..] == s;
    }
  }

  /** The sort orders by key, keeps every element, and is stable: for every key
      the elements carrying it appear in their input order. */
  lemma {:induction false} SortByCorrect<T>(s: seq<T>, key: T -> int)
    ensures SortedBy(SortBy(s, key), key)
    ensures multiset(SortBy(s, key)) == multiset(s)
    ensures |SortBy(s, key)| == |s|
    ensures forall k :: WithKey(SortBy(s, key), key, k) == WithKey(s, key, k)
  {
    if |s| > 0 {
      SortByCorrect(s[1..], key);
      InsertSorted(s[0], SortBy(s[1..], key), key);
      forall k ensures WithKey(SortBy(s, key), key, k) == WithKey(s, key, k) {
        InsertWithKey(s[0], SortBy(s[1..], key), key, k);
      }
      assert s == [s[0]] + s[1..];
    }
  }

  lemma WithKeyHead<T>(s: seq<T>, key: T -> int)
    requires |s| > 0
    ensures WithKey(s, key, key(s[0])) == [s[0]] + WithKey(s[1..], key, key(s[0]))
  {
  }

  lemma {:induction false} WithKeyNonEmpty<T>(s: seq<T>, key: T -> int, k: int)
    requires WithKey(s, key, k) != []
    ensures exists i :: 0 <= i < |s| && key(s[i]) == k
  {
    if key(s[0]) != k {
      WithKeyNonEmpty(s[1..], key, k);
      var i :| 0 <= i < |s[1..]| && key(s[1..][i]) == k;
      assert key(s[i + 1]) == k;
    }
  }

  /** A sorted sequence is determined by its per-key subsequences: so any two
      stable sorts of the same input agree, and ranking is deterministic. */
  lemma {:induction false} SortedUnique<T>(a: seq<T>, b: seq<T>, key: T -> int)
    requires SortedBy(a, key) && SortedBy(b, key)
    requires forall k :: WithKey(a, key, k) == WithKey(b, key, k)
    ensures a == b
  {
    if |a| == 0 || |b| == 0 {
      if |a| > 0 {
        WithKeyHead(a, key);
        assert false;
      } else if |b| > 0 {
        WithKeyHead(b, key);
        assert false;
      }
    } else {
      var ka, kb := key(a[0]), key(b[0]);
      WithKeyHead(a, key);
      WithKeyHead(b, key);
      WithKeyNonEmpty(b, key, ka);
      WithKeyNonEmpty(a, key, kb);
      assert ka == kb;
      assert a[0] == b[0] by {
        assert WithKey(a, key, ka)[0] == a[0];
        assert WithKey(b, key, ka)[0] == b[0];
      }
      forall k ensures WithKey(a[1..], key, k) == WithKey(b[1..], key, k) {
        assert WithKey(a, key, k) == WithKey(b, key, k);
        if k == ka {
          assert WithKey(a, key, k)[1..] == WithKey(a[1..], key, k);
          assert WithKey(b, key, k)[1..] == WithKey(b[1..], key, k);
        } else {
          assert WithKey(a, key, k) == WithKey(a[1..], key, k);
          assert WithKey(b, key, k) == WithKey(b[1..], key, k);
        }
      }
      SortedUnique(a[1..], b[1..], key);
      assert a == [a[0]] + a[1..] && b == [b[0]] + b[1..];
    }
  }

  /** `s.map(f)`. */
  function Map<A, B>(s: seq<A>, f: A -> B): (r: seq<B>)
    ensures |r| == |s| && forall i :: 0 <= i < |s| ==> r[i] == f(s[i])
  {
    seq(|s|, i requires 0 <= i < |s| => f(s[i]))
  }

  lemma {:induction false} InsertMap<A, B>(x: A, s: seq<A>, f: A -> B, keyA: A -> int, keyB: B -> int)
    requires keyA(x) == keyB(f(x))
    requires forall y :: y in s ==> keyA(y) == keyB(f(y))
    ensures Map(Insert(x, s, keyA), f) == Insert(f(x), Map(s, f), keyB)
  {
    if |s| > 0 && keyA(x) > keyA(s[0]) {
      assert s[0] in s;
      InsertMap(x, s[1..], f, keyA, keyB);
      assert Map(s, f)[1..] == Map(s[1..], f);
    }
  }

  /** Sorting elements by a key read off their images sorts the images: sorting
      annotated records by the annotation and then dropping it is the same as
      sorting the records by the function that computed the annotation. */
  lemma {:induction false} SortByMap<A, B>(s: seq<A>, f: A -> B, keyA: A -> int, keyB: B -> int)
    requires forall y :: y in s ==> keyA(y) == keyB(f(y))
    ensures Map(SortBy(s, keyA), f) == SortBy(Map(s, f), keyB)
  {
    if |s| > 0 {
      SortByMap(s[1..], f, keyA, keyB);
      KeysAgreeAfterSort(s[1..], f, keyA, keyB);
      assert s[0] in s;
      InsertMap(s[0], SortBy(s[1..], keyA), f, keyA, keyB);
      assert Map(s, f)[1..] == Map(s[1..], f);
    }
  }

  lemma KeysAgreeAfterSort<A, B>(s: seq<A>, f: A -> B, keyA: A -> int, keyB: B -> int)
    requires forall y :: y in s ==> keyA(y) == keyB(f(y))
    ensures forall y :: y in SortBy(s, keyA) ==> keyA(y) == keyB(f(y))
  {
    SortByCorrect(s, keyA);
    forall y | y in SortBy(s, keyA) ensures keyA(y) == keyB(f(y)) {
      assert y in multiset(SortBy(s, keyA));
    }
  }

  /** Taking element `i` out of `s` takes one of it out of its multiset. */
  lemma MultisetRemove<T>(s: seq<T>, i: nat)
    requires i < |s|
    ensures multiset(s[..i] + s[i + 1..]) == multiset(s) - multiset{s[i]}
  {
    assert s == s[..i] + [s[i]] + s[i + 1..];
  }

  /** When `a` and `b` hold the same elements, the head of `a` is at some `i`
      in `b`, and the rest of `a` holds those of `b` without it. */
  lemma MultisetRest<T>(a: seq<T>, b: seq<T>) returns (i: nat)
    requires multiset(a) == multiset(b) && a != []
    ensures i < |b| && b[i] == a[0] && multiset(a[1..]) == multiset(b[..i] + b[i + 1..])
  {
    i := IndexIn(b, a[0]);
    MultisetRemove(a, 0);
    MultisetRemove(b, i);
    assert a[..0] + a[1..] == a[1..];
  }

  /** An element of the multiset of `s` is at some index of `s`. */
  lemma IndexIn<T>(s: seq<T>, x: T) returns (i: nat)
    requires x in multiset(s)
    ensures i < |s| && s[i] == x
  {
    assert x in s;
    i :| 0 <= i < |s| && s[i] == x;
  }
}
