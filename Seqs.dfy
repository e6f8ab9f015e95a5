/**
  Order-preserving operations on sequences keyed by an identifier, shared by
  the member/watcher union of the autocomplete and by the channel list:
  lodash's `uniqBy` (keep the first element of every key), a filter that drops
  given keys, dropping absent values, and `filter` and `slice(0, n)`.
 */
module Seqs {
  import opened Js

  /** The keys of the elements of `s`. */
  function KeysOf<T, K>(s: seq<T>, key: T -> K): set<K>
  {
    set i | 0 <= i < |s| :: key(s[i])
  }

  /** No two elements of `s` share a key. */
  predicate NoDupKeys<T, K(==)>(s: seq<T>, key: T -> K)
  {
    forall i, j :: 0 <= i < j < |s| ==> key(s[i]) != key(s[j])
  }

  /**
    `uniqBy(s, key)`: the first element of every key, in the order of `s`.
    It never lengthens its input and always keeps the input's first element;
    the lemmas below give its keys, its uniqueness and which element it keeps.
   */
  function UniqBy<T, K(==)>(s: seq<T>, key: T -> K): (r: seq<T>)
    ensures |r| <= |s|
    ensures s != [] ==> r != [] && r[0] == s[0]
  {
    if s == [] then []
    else
      var r := UniqBy(s[..|s| - 1], key);
      if key(s[|s| - 1]) in KeysOf(r, key) then r else r + [s[|s| - 1]]
  }

  /** The elements of `s` whose key is not in `ks`, in the order of `s`: no survivor has a dropped key. */
  function WithoutKeys<T, K(==)>(s: seq<T>, key: T -> K, ks: set<K>): (r: seq<T>)
    ensures |r| <= |s|
    ensures forall i :: 0 <= i < |r| ==> key(r[i]) !in ks
  {
    if s == [] then []
    else
      var r := WithoutKeys(s[..|s| - 1], key, ks);
      if key(s[|s| - 1]) in ks then r else r + [s[|s| - 1]]
  }

  /** The defined values of `s`, in order (`if (x)` skips `null` and `undefined`). */
  function Present<T(!new)>(s: seq<Option<T>>): (r: seq<T>)
    ensures |r| <= |s|
    ensures forall x :: x in r <==> Some(x) in s
  {
    if s == [] then []
    else
      var r := Present(s[..|s| - 1]);
      assert s == s[..|s| - 1] + [s[|s| - 1]];
      match s[|s| - 1]
      case None => r
      case Some(x) => r + [x]
  }

  /** `s.filter(keep)`. */
  function Filter<T(!new)>(s: seq<T>, keep: T -> bool): (r: seq<T>)
    ensures |r| <= |s|
    ensures forall x :: x in r <==> x in s && keep(x)
  {
    if s == [] then []
    else
      var r := Filter(s[..|s| - 1], keep);
      assert s == s[..|s| - 1] + [s[|s| - 1]];
      if keep(s[|s| - 1]) then r + [s[|s| - 1]] else r
  }

  /** `s.slice(0, n)`. */
  function Take<T>(s: seq<T>, n: nat): (r: seq<T>)
    ensures |r| == Min(n, |s|)
    ensures forall i :: 0 <= i < |r| ==> r[i] == s[i]
  {
    if |s| <= n then s else s[..n]
  }

  /** `uniqBy` keeps every key of its input, and no other. */
  lemma {:induction false} UniqByKeys<T, K>(s: seq<T>, key: T -> K)
    ensures KeysOf(UniqBy(s, key), key) == KeysOf(s, key)
    decreases |s|
  {
    if s != [] {
      var s', x := s[..|s| - 1], s[|s| - 1];
      assert s == s' + [x];
      UniqByKeys(s', key);
      UniqBySnoc(s', x, key);
      KeysOfSnoc(s', x, key);
      KeysOfSnoc(UniqBy(s', key), x, key);
    }
  }

  /** `uniqBy` never lists a key twice. */
  lemma {:induction false} UniqByNoDup<T, K>(s: seq<T>, key: T -> K)
    ensures NoDupKeys(UniqBy(s, key), key)
    decreases |s|
  {
    if s != [] {
      var s', x := s[..|s| - 1], s[|s| - 1];
      assert s == s' + [x];
      UniqByNoDup(s', key);
      UniqBySnoc(s', x, key);
      var r' := UniqBy(s', key);
      if key(x) !in KeysOf(r', key) {
        var r := r' + [x];
        forall i, j | 0 <= i < j < |r| ensures key(r[i]) != key(r[j]) {
          if j == |r'| {
            assert key(r'[i]) in KeysOf(r', key);
          } else {
            assert r[i] == r'[i] && r[j] == r'[j];
          }
        }
      }
    }
  }

  /** Every element `uniqBy` lists comes from its input. */
  lemma {:induction false} UniqBySubset<T(!new), K>(s: seq<T>, key: T -> K)
    ensures forall x :: x in UniqBy(s, key) ==> x in s
    decreases |s|
  {
    if s != [] {
      var s', x := s[..|s| - 1], s[|s| - 1];
      assert s == s' + [x];
      UniqBySubset(s', key);
      UniqBySnoc(s', x, key);
    }
  }

  /** The survivors are exactly the elements whose key is not dropped. */
  lemma {:induction false} WithoutKeysMembers<T(!new), K>(s: seq<T>, key: T -> K, ks: set<K>)
    ensures forall x :: x in WithoutKeys(s, key, ks) <==> x in s && key(x) !in ks
    decreases |s|
  {
    if s != [] {
      var s', x := s[..|s| - 1], s[|s| - 1];
      assert s == s' + [x];
      WithoutKeysMembers(s', key, ks);
      WithoutKeysSnoc(s', x, key, ks);
    }
  }

  /** One more element: `uniqBy` appends it exactly when its key is new. */
  lemma UniqBySnoc<T, K>(s: seq<T>, x: T, key: T -> K)
    ensures UniqBy(s + [x], key)
         == if key(x) in KeysOf(UniqBy(s, key), key) then UniqBy(s, key) else UniqBy(s, key) + [x]
  {
    assert (s + [x])[..|s|] == s;
  }

  /** One more value: `Present` appends it exactly when it is defined. */
  lemma PresentSnoc<T(!new)>(s: seq<Option<T>>, x: Option<T>)
    ensures Present(s + [x]) == if x.Some? then Present(s) + [x.value] else Present(s)
  {
    assert (s + [x])[..|s|] == s;
  }

  /** One more element: it survives exactly when its key is not dropped. */
  lemma WithoutKeysSnoc<T, K>(s: seq<T>, x: T, key: T -> K, ks: set<K>)
    ensures WithoutKeys(s + [x], key, ks)
         == if key(x) in ks then WithoutKeys(s, key, ks) else WithoutKeys(s, key, ks) + [x]
  {
    assert (s + [x])[..|s|] == s;
  }

  /** The keys of a sequence with one more element gain that element's key. */
  lemma KeysOfSnoc<T, K>(s: seq<T>, x: T, key: T -> K)
    ensures KeysOf(s + [x], key) == KeysOf(s, key) + {key(x)}
  {
    var t := s + [x];
    assert forall i :: 0 <= i < |s| ==> t[i] == s[i];
    assert t[|s|] == x;
  }

  /** The keys of a concatenation are those of both parts. */
  lemma KeysOfAppend<T, K>(a: seq<T>, b: seq<T>, key: T -> K)
    ensures KeysOf(a + b, key) == KeysOf(a, key) + KeysOf(b, key)
  {
    var t := a + b;
    forall k | k in KeysOf(t, key) ensures k in KeysOf(a, key) + KeysOf(b, key) {
      var i :| 0 <= i < |t| && key(t[i]) == k;
      if i >= |a| {
        assert b[i - |a|] == t[i];
      } else {
        assert a[i] == t[i];
      }
    }
    forall k | k in KeysOf(a, key) ensures k in KeysOf(t, key) {
      var i :| 0 <= i < |a| && key(a[i]) == k;
      assert t[i] == a[i];
    }
    forall k | k in KeysOf(b, key) ensures k in KeysOf(t, key) {
      var i :| 0 <= i < |b| && key(b[i]) == k;
      assert t[|a| + i] == b[i];
    }
  }

  /** Dropping keys distributes over concatenation: the survivors keep their relative order. */
  lemma {:induction false} WithoutKeysAppend<T, K>(a: seq<T>, b: seq<T>, key: T -> K, ks: set<K>)
    ensures WithoutKeys(a + b, key, ks) == WithoutKeys(a, key, ks) + WithoutKeys(b, key, ks)
    decreases |b|
  {
    if b == [] {
      assert a + b == a;
    } else {
      var b' := b[..|b| - 1];
      assert (a + b)[..|a + b| - 1] == a + b';
      assert (a + b)[|a + b| - 1] == b[|b| - 1];
      WithoutKeysAppend(a, b', key, ks);
    }
  }

  /** Dropping keys that do not occur changes nothing. */
  lemma {:induction false} WithoutAbsentKeys<T, K>(s: seq<T>, key: T -> K, ks: set<K>)
    requires KeysOf(s, key) !! ks
    ensures WithoutKeys(s, key, ks) == s
    decreases |s|
  {
    if s != [] {
      var s' := s[..|s| - 1];
      KeysOfSnoc(s', s[|s| - 1], key);
      assert s == s' + [s[|s| - 1]];
      WithoutAbsentKeys(s', key, ks);
    }
  }

  /** The keys that survive are exactly those not dropped. */
  lemma {:induction false} KeysOfWithoutKeys<T, K>(s: seq<T>, key: T -> K, ks: set<K>)
    ensures KeysOf(WithoutKeys(s, key, ks), key) == KeysOf(s, key) - ks
    decreases |s|
  {
    if s != [] {
      var s' := s[..|s| - 1];
      var x := s[|s| - 1];
      KeysOfWithoutKeys(s', key, ks);
      KeysOfSnoc(s', x, key);
      assert s == s' + [x];
      if key(x) !in ks {
        KeysOfSnoc(WithoutKeys(s', key, ks), x, key);
      }
    }
  }

  /** Dropping the same keys twice is the same as dropping them once. */
  lemma WithoutKeysIdempotent<T, K>(s: seq<T>, key: T -> K, ks: set<K>)
    ensures WithoutKeys(WithoutKeys(s, key, ks), key, ks) == WithoutKeys(s, key, ks)
  {
    KeysOfWithoutKeys(s, key, ks);
    WithoutAbsentKeys(WithoutKeys(s, key, ks), key, ks);
  }

  /** Dropping keys keeps a sequence free of duplicate keys. */
  lemma {:induction false} WithoutKeysNoDup<T(!new), K>(s: seq<T>, key: T -> K, ks: set<K>)
    requires NoDupKeys(s, key)
    ensures NoDupKeys(WithoutKeys(s, key, ks), key)
    decreases |s|
  {
    if s != [] {
      var s' := s[..|s| - 1];
      var x := s[|s| - 1];
      assert NoDupKeys(s', key);
      WithoutKeysNoDup(s', key, ks);
      var r' := WithoutKeys(s', key, ks);
      assert s == s' + [x];
      WithoutKeysSnoc(s', x, key, ks);
      WithoutKeysMembers(s', key, ks);
      if key(x) !in ks {
        var r := r' + [x];
        forall i, j | 0 <= i < j < |r| ensures key(r[i]) != key(r[j]) {
          if j < |r'| {
            assert r[i] == r'[i] && r[j] == r'[j];
          } else {
            assert r'[i] in r';
            var k :| 0 <= k < |s'| && s'[k] == r'[i];
            assert s[k] == s'[k];
          }
        }
      }
    }
  }

  /** On a sequence without duplicate keys, dropping one present key removes exactly one element. */
  lemma {:induction false} WithoutOneKeyLength<T, K>(s: seq<T>, key: T -> K, k: K)
    requires NoDupKeys(s, key)
    ensures |WithoutKeys(s, key, {k})| == if k in KeysOf(s, key) then |s| - 1 else |s|
    decreases |s|
  {
    if s != [] {
      var s' := s[..|s| - 1];
      var x := s[|s| - 1];
      assert NoDupKeys(s', key);
      WithoutOneKeyLength(s', key, k);
      KeysOfSnoc(s', x, key);
      assert s == s' + [x];
      if key(x) == k {
        forall i | 0 <= i < |s'| ensures key(s'[i]) != k {
          assert s[i] == s'[i];
        }
      }
    }
  }

  /** In a sequence without duplicate keys, the head's key does not occur in the tail. */
  lemma HeadKeyNotInTail<T, K>(s: seq<T>, key: T -> K)
    requires s != [] && NoDupKeys(s, key)
    ensures key(s[0]) !in KeysOf(s[1..], key)
  {
    forall i | 0 <= i < |s| - 1 ensures key(s[1..][i]) != key(s[0]) {
      assert s[1..][i] == s[i + 1];
    }
  }

  /** A sequence already free of duplicate keys is its own `uniqBy`. */
  lemma {:induction false} UniqByOfNoDup<T, K>(s: seq<T>, key: T -> K)
    requires NoDupKeys(s, key)
    ensures UniqBy(s, key) == s
    decreases |s|
  {
    if s != [] {
      var s' := s[..|s| - 1];
      var x := s[|s| - 1];
      assert NoDupKeys(s', key) by {
        forall i, j | 0 <= i < j < |s'| ensures key(s'[i]) != key(s'[j]) {
          assert s'[i] == s[i] && s'[j] == s[j];
        }
      }
      UniqByOfNoDup(s', key);
      assert s == s' + [x];
    }
  }

  /**
    `uniqBy` of a concatenation: the first part is deduplicated on its own, and
    of the second part only the keys the first part lacks are kept.
   */
  lemma {:induction false} UniqByAppend<T, K>(a: seq<T>, b: seq<T>, key: T -> K)
    ensures UniqBy(a + b, key) == UniqBy(a, key) + UniqBy(WithoutKeys(b, key, KeysOf(a, key)), key)
    decreases |b|
  {
    var ka := KeysOf(a, key);
    if b == [] {
      assert a + b == a;
    } else {
      var b', x := b[..|b| - 1], b[|b| - 1];
      var ab' := a + b';
      assert a + b == ab' + [x];
      assert b == b' + [x];
      var w' := WithoutKeys(b', key, ka);
      UniqByAppend(a, b', key);
      UniqBySnoc(ab', x, key);
      WithoutKeysSnoc(b', x, key, ka);
      UniqBySnoc(w', x, key);
      UniqByKeys(a, key);
      UniqByKeys(w', key);
      AppendStep(UniqBy(a, key), UniqBy(w', key), ka, KeysOf(w', key), x, key);
    }
  }

  /** The step of `UniqByAppend`, stated on plain sequences and key sets. */
  lemma AppendStep<T, K>(ua: seq<T>, uw: seq<T>, ka: set<K>, kw: set<K>, x: T, key: T -> K)
    requires KeysOf(ua, key) == ka && KeysOf(uw, key) == kw
    ensures (if key(x) in KeysOf(ua + uw, key) then ua + uw else ua + uw + [x])
         == ua + (if key(x) in ka then uw else if key(x) in kw then uw else uw + [x])
  {
    KeysOfAppend(ua, uw, key);
    assert ua + uw + [x] == ua + (uw + [x]);
  }

  /** An element whose key does not occur earlier in `s` is kept by `uniqBy`. */
  lemma UniqByKeepsFirst<T, K>(s: seq<T>, key: T -> K, i: nat)
    requires i < |s| && key(s[i]) !in KeysOf(s[..i], key)
    ensures s[i] in UniqBy(s, key)
  {
    var a, b := s[..i], s[i..];
    assert s == a + b;
    UniqByAppend(a, b, key);
    var ka := KeysOf(a, key);
    assert b == [s[i]] + b[1..];
    WithoutKeysAppend([s[i]], b[1..], key, ka);
    var w := WithoutKeys(b, key, ka);
    assert w == [s[i]] + WithoutKeys(b[1..], key, ka) by {
      assert WithoutKeys([s[i]], key, ka) == [s[i]] by {
        assert [s[i]][..0] == [];
      }
    }
    UniqByAppend([s[i]], WithoutKeys(b[1..], key, ka), key);
    assert UniqBy([s[i]], key) == [s[i]] by {
      assert [s[i]][..0] == [];
    }
  }

  /** Putting `x` in front: `x` stays first and every later element with its key is dropped. */
  lemma UniqByCons<T, K>(x: T, s: seq<T>, key: T -> K)
    ensures UniqBy([x] + s, key) == [x] + UniqBy(WithoutKeys(s, key, {key(x)}), key)
  {
    var e: seq<T> := [];
    assert e + [x] == [x];
    assert KeysOf(e, key) == {};
    KeysOfSnoc(e, x, key);
    UniqBySnoc(e, x, key);
    assert UniqBy([x], key) == [x];
    assert KeysOf([x], key) == {key(x)};
    UniqByAppend([x], s, key);
  }

  /** Dropping absent values distributes over concatenation. */
  lemma {:induction false} PresentAppend<T(!new)>(a: seq<Option<T>>, b: seq<Option<T>>)
    ensures Present(a + b) == Present(a) + Present(b)
    decreases |b|
  {
    if b == [] {
      assert a + b == a;
    } else {
      var b' := b[..|b| - 1];
      assert (a + b)[..|a + b| - 1] == a + b';
      assert (a + b)[|a + b| - 1] == b[|b| - 1];
      PresentAppend(a, b');
    }
  }

  /** A filter that keeps everything returns its input. */
  lemma {:induction false} FilterAll<T(!new)>(s: seq<T>, keep: T -> bool)
    requires forall i :: 0 <= i < |s| ==> keep(s[i])
    ensures Filter(s, keep) == s
    decreases |s|
  {
    if s != [] {
      FilterAll(s[..|s| - 1], keep);
      assert s == s[..|s| - 1] + [s[|s| - 1]];
    }
  }

  /** The first `n` elements of a filter keep the order of the input and satisfy the filter. */
  lemma {:induction false} TakeFilter<T(!new)>(s: seq<T>, keep: T -> bool, n: nat)
    ensures forall x :: x in Take(Filter(s, keep), n) ==> x in s && keep(x)
  {
    var r := Filter(s, keep);
    forall x | x in Take(r, n) ensures x in r {
      var i :| 0 <= i < |Take(r, n)| && Take(r, n)[i] == x;
      assert r[i] == x;
    }
  }
}
