/**
 Sequences of records that carry an integer key (exercises and workouts both
 carry an `id`). `RemoveKey` is the `list.filter(x => x.id !== k)` that the
 application uses to delete an exercise from the active workout and a workout
 from the history.
 */
module KeyedSeq {

  /** The keys of `s`, in order. */
  function Keys<T>(s: seq<T>, key: T -> int): seq<int>
  {
    seq(|s|, i requires 0 <= i < |s| => key(s[i]))
  }

  /** No two elements of `s` share a key. */
  predicate UniqueKeys<T>(s: seq<T>, key: T -> int)
  {
    forall i, j :: 0 <= i < j < |s| ==> key(s[i]) != key(s[j])
  }

  /** The elements of `s` whose key is not `k`, in their original order. */
  function RemoveKey<T>(s: seq<T>, key: T -> int, k: int): seq<T>
  {
    if s == [] then []
    else if key(s[0]) != k then [s[0]] + RemoveKey(s[1..], key, k)
    else RemoveKey(s[1..], key, k)
  }

  /** An element survives the removal exactly when it was there and its key is not `k`. */
  lemma {:induction false} RemoveKeyMembership<T>(s: seq<T>, key: T -> int, k: int, x: T)
    ensures x in RemoveKey(s, key, k) <==> x in s && key(x) != k
  {
    if s != [] {
      assert x in s <==> x == s[0] || x in s[1..];
      RemoveKeyMembership(s[1..], key, k, x);
    }
  }

  /** No element with key `k` is left. */
  lemma {:induction false} RemoveKeyRemovesAll<T>(s: seq<T>, key: T -> int, k: int)
    ensures k !in Keys(RemoveKey(s, key, k), key)
  {
    var r := RemoveKey(s, key, k);
    if k in Keys(r, key) {
      var i :| 0 <= i < |r| && Keys(r, key)[i] == k;
      RemoveKeyMembership(s, key, k, r[i]);
      assert false;
    }
  }

  /**
   Removal distributes over concatenation: the survivors of a prefix stay in
   front of the survivors of the rest, so the relative order is kept.
   */
  lemma {:induction false} RemoveKeyConcat<T>(a: seq<T>, b: seq<T>, key: T -> int, k: int)
    ensures RemoveKey(a + b, key, k) == RemoveKey(a, key, k) + RemoveKey(b, key, k)
  {
    if a == [] {
      assert a + b == b;
    } else {
      assert (a + b)[1..] == a[1..] + b;
      RemoveKeyConcat(a[1..], b, key, k);
    }
  }

  /** Removing a key that no element carries changes nothing. */
  lemma {:induction false} RemoveKeyAbsent<T>(s: seq<T>, key: T -> int, k: int)
    requires k !in Keys(s, key)
    ensures RemoveKey(s, key, k) == s
  {
    if s != [] {
      assert key(s[0]) == Keys(s, key)[0];
      assert Keys(s[1..], key) == Keys(s, key)[1..];
      RemoveKeyAbsent(s[1..], key, k);
    }
  }

  /** A second removal of the same key is a no-op. */
  lemma {:induction false} RemoveKeyIdempotent<T>(s: seq<T>, key: T -> int, k: int)
    ensures RemoveKey(RemoveKey(s, key, k), key, k) == RemoveKey(s, key, k)
  {
    RemoveKeyRemovesAll(s, key, k);
    RemoveKeyAbsent(RemoveKey(s, key, k), key, k);
  }

  /** Removal never introduces a duplicate key. */
  lemma {:induction false} RemoveKeyKeepsUnique<T>(s: seq<T>, key: T -> int, k: int)
    requires UniqueKeys(s, key)
    ensures UniqueKeys(RemoveKey(s, key, k), key)
  {
    if s != [] {
      var tail := RemoveKey(s[1..], key, k);
      RemoveKeyKeepsUnique(s[1..], key, k);
      if key(s[0]) != k {
        forall j | 0 <= j < |tail|
          ensures key(s[0]) != key(tail[j])
        {
          RemoveKeyMembership(s[1..], key, k, tail[j]);
          var m :| 0 <= m < |s[1..]| && s[1..][m] == tail[j];
          assert s[m + 1] == tail[j];
        }
        var r := [s[0]] + tail;
        forall i, j | 0 <= i < j < |r|
          ensures key(r[i]) != key(r[j])
        {
          if i > 0 {
            assert r[i] == tail[i - 1] && r[j] == tail[j - 1];
          } else {
            assert r[j] == tail[j - 1];
          }
        }
      }
    }
  }

  /** With unique keys, deleting a present key shortens the sequence by exactly one. */
  lemma {:induction false} RemoveKeyUniquePresent<T>(s: seq<T>, key: T -> int, k: int)
    requires UniqueKeys(s, key)
    requires k in Keys(s, key)
    ensures |RemoveKey(s, key, k)| == |s| - 1
  {
    assert Keys(s[1..], key) == Keys(s, key)[1..];
    assert UniqueKeys(s[1..], key) by {
      forall i, j | 0 <= i < j < |s[1..]|
        ensures key(s[1..][i]) != key(s[1..][j])
      {
        assert s[1..][i] == s[i + 1] && s[1..][j] == s[j + 1];
      }
    }
    if key(s[0]) == k {
      RemoveKeyAbsent(s[1..], key, k);
    } else {
      var i :| 0 <= i < |s| && Keys(s, key)[i] == k;
      assert i > 0 && Keys(s[1..], key)[i - 1] == k;
      RemoveKeyUniquePresent(s[1..], key, k);
    }
  }

  /** Appending an element with a fresh key keeps the keys unique. */
  lemma AppendFreshKeepsUnique<T>(s: seq<T>, key: T -> int, x: T)
    requires UniqueKeys(s, key)
    requires key(x) !in Keys(s, key)
    ensures UniqueKeys(s + [x], key)
  {
    var r := s + [x];
    forall i, j | 0 <= i < j < |r|
      ensures key(r[i]) != key(r[j])
    {
      if j == |s| {
        assert Keys(s, key)[i] == key(r[i]);
      }
    }
  }
}
