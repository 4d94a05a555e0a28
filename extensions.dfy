/**
 * `Extensions.DistinctBy`: keep, in order, the first element seen for each
 * key, tracking the keys seen so far in a hash set. The specification
 * function `FirstOfEachKey` is also what the aggregation uses to describe
 * which items found the channel records and which media sources a merge
 * appends.
 */
module Extensions {

  /** The keys of the elements of `s`. */
  function KeysOf<T, K>(s: seq<T>, key: T -> K): set<K>
  {
    set i | 0 <= i < |s| :: key(s[i])
  }

  /** The first element of `s` for each key, in the order of `s`. */
  function FirstOfEachKey<T, K(==)>(s: seq<T>, key: T -> K): seq<T>
    decreases |s|
  {
    if s == [] then []
    else
      var prefix := FirstOfEachKey(s[..|s| - 1], key);
      if key(s[|s| - 1]) in KeysOf(s[..|s| - 1], key) then prefix else prefix + [s[|s| - 1]]
  }

  /** The elements of `s` whose key is `k`, in the order of `s`. */
  function WithKey<T, K(==)>(s: seq<T>, key: T -> K, k: K): seq<T>
    decreases |s|
  {
    if s == [] then []
    else
      var prefix := WithKey(s[..|s| - 1], key, k);
      if key(s[|s| - 1]) == k then prefix + [s[|s| - 1]] else prefix
  }

  /** `r` is `s` with some elements left out and the others in their order. */
  ghost predicate IsSubsequence<T>(r: seq<T>, s: seq<T>)
    decreases |s|
  {
    if r == [] then true
    else if s == [] then false
    else
      (r[|r| - 1] == s[|s| - 1] && IsSubsequence(r[..|r| - 1], s[..|s| - 1]))
      || IsSubsequence(r, s[..|s| - 1])
  }

  /** `Extensions.DistinctBy`, as the `foreach` loop over a `HashSet` runs it. */
  method DistinctBy<T, K(==)>(source: seq<T>, keySelector: T -> K) returns (r: seq<T>)
    ensures r == FirstOfEachKey(source, keySelector)
  {
    var seenKeys: set<K> := {};
    r := [];
    var i := 0;
    while i < |source|
      invariant 0 <= i <= |source|
      invariant seenKeys == KeysOf(source[..i], keySelector)
      invariant r == FirstOfEachKey(source[..i], keySelector)
    {
      var element := source[i];
      assert source[..i + 1][..i] == source[..i];
      KeysOfSnoc(source[..i], element, keySelector);
      assert source[..i + 1] == source[..i] + [element];
      // HashSet.Add reports whether the key was new
      var added := keySelector(element) !in seenKeys;
      seenKeys := seenKeys + {keySelector(element)};
      if added {
        r := r + [element];
      }
      i := i + 1;
    }
    assert source[..i] == source;
  }

  lemma KeysOfSnoc<T, K>(s: seq<T>, x: T, key: T -> K)
    ensures KeysOf(s + [x], key) == KeysOf(s, key) + {key(x)}
  {
    var t := s + [x];
    assert key(t[|s|]) == key(x);
    forall k | k in KeysOf(s, key) ensures k in KeysOf(t, key) {
      var i :| 0 <= i < |s| && key(s[i]) == k;
      assert t[i] == s[i];
    }
  }

  lemma {:induction false} KeysOfConcat<T, K>(a: seq<T>, b: seq<T>, key: T -> K)
    ensures KeysOf(a + b, key) == KeysOf(a, key) + KeysOf(b, key)
    decreases |b|
  {
    if b == [] {
      assert a + b == a;
    } else {
      var b' := b[..|b| - 1];
      var x := b[|b| - 1];
      assert b == b' + [x];
      assert a + b == (a + b') + [x];
      KeysOfConcat(a, b', key);
      KeysOfSnoc(a + b', x, key);
      KeysOfSnoc(b', x, key);
    }
  }

  /** The elements kept are a subsequence of the input, in input order. */
  lemma {:induction false} FirstOfEachKeyIsSubsequence<T, K>(s: seq<T>, key: T -> K)
    ensures IsSubsequence(FirstOfEachKey(s, key), s)
    decreases |s|
  {
    if s != [] {
      var s' := s[..|s| - 1];
      var r' := FirstOfEachKey(s', key);
      FirstOfEachKeyIsSubsequence(s', key);
      SubsequenceOfSnoc(r', s', s[|s| - 1]);
      if key(s[|s| - 1]) !in KeysOf(s', key) {
        var r := r' + [s[|s| - 1]];
        assert r[..|r| - 1] == r';
      }
    }
  }

  lemma {:induction false} SubsequenceOfSnoc<T>(r: seq<T>, s: seq<T>, x: T)
    requires IsSubsequence(r, s)
    ensures IsSubsequence(r, s + [x])
  {
    assert (s + [x])[..|s|] == s;
  }

  /** Every key of the input is the key of some element kept. */
  lemma {:induction false} FirstOfEachKeyKeys<T, K>(s: seq<T>, key: T -> K)
    ensures KeysOf(FirstOfEachKey(s, key), key) == KeysOf(s, key)
    decreases |s|
  {
    if s != [] {
      var s' := s[..|s| - 1];
      var x := s[|s| - 1];
      assert s == s' + [x];
      FirstOfEachKeyKeys(s', key);
      KeysOfSnoc(s', x, key);
      KeysOfSnoc(FirstOfEachKey(s', key), x, key);
    }
  }

  /** No two elements of `s` share a key. */
  ghost predicate KeysDistinct<T, K>(s: seq<T>, key: T -> K)
  {
    forall i, j :: 0 <= i < j < |s| ==> key(s[i]) != key(s[j])
  }

  lemma KeysDistinctSnoc<T, K>(s: seq<T>, x: T, key: T -> K)
    requires KeysDistinct(s, key)
    requires key(x) !in KeysOf(s, key)
    ensures KeysDistinct(s + [x], key)
  {
    var t := s + [x];
    forall i, j | 0 <= i < j < |t| ensures key(t[i]) != key(t[j]) {
      assert t[i] == s[i];
      if j == |s| {
        assert key(s[i]) in KeysOf(s, key);
      } else {
        assert t[j] == s[j];
      }
    }
  }

  /** No two elements kept share a key. */
  lemma {:induction false} FirstOfEachKeyDistinct<T, K>(s: seq<T>, key: T -> K)
    ensures KeysDistinct(FirstOfEachKey(s, key), key)
    decreases |s|
  {
    if s != [] {
      var s' := s[..|s| - 1];
      var x := s[|s| - 1];
      FirstOfEachKeyDistinct(s', key);
      if key(x) !in KeysOf(s', key) {
        FirstOfEachKeyKeys(s', key);
        KeysDistinctSnoc(FirstOfEachKey(s', key), x, key);
      }
    }
  }

  /** As many elements are kept as there are distinct keys in the input. */
  lemma {:induction false} FirstOfEachKeyCount<T, K>(s: seq<T>, key: T -> K)
    ensures |FirstOfEachKey(s, key)| == |KeysOf(s, key)|
    decreases |s|
  {
    if s != [] {
      var s' := s[..|s| - 1];
      var x := s[|s| - 1];
      assert s == s' + [x];
      FirstOfEachKeyCount(s', key);
      KeysOfSnoc(s', x, key);
    }
  }

  lemma {:induction false} WithKeyEmpty<T, K>(s: seq<T>, key: T -> K, k: K)
    ensures WithKey(s, key, k) == [] <==> k !in KeysOf(s, key)
    decreases |s|
  {
    if s != [] {
      var s' := s[..|s| - 1];
      var x := s[|s| - 1];
      assert s == s' + [x];
      WithKeyEmpty(s', key, k);
      KeysOfSnoc(s', x, key);
    }
  }

  /**
   * The element kept for a key is the first element of the input with that
   * key.
   */
  lemma {:induction false} FirstOfEachKeyFirst<T, K>(s: seq<T>, key: T -> K)
    ensures var r := FirstOfEachKey(s, key);
      forall j :: 0 <= j < |r| ==> WithKey(s, key, key(r[j])) != [] && WithKey(s, key, key(r[j]))[0] == r[j]
    decreases |s|
  {
    if s != [] {
      var s' := s[..|s| - 1];
      var x := s[|s| - 1];
      var r' := FirstOfEachKey(s', key);
      var r := FirstOfEachKey(s, key);
      FirstOfEachKeyFirst(s', key);
      FirstOfEachKeyKeys(s', key);
      forall j | 0 <= j < |r| ensures WithKey(s, key, key(r[j])) != [] && WithKey(s, key, key(r[j]))[0] == r[j] {
        if j < |r'| {
          assert r[j] == r'[j];
        } else {
          WithKeyEmpty(s', key, key(x));
        }
      }
    }
  }
}
