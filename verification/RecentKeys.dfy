/** Keys in order of last use, and the list of the latest n of them kept by moving keys to the back. */
module RecentKeys {

  function Without<K(==)>(keys: seq<K>, key: K): seq<K> {
    if keys == [] then []
    else if keys[0] == key then Without(keys[1..], key)
    else [keys[0]] + Without(keys[1..], key)
  }

  /** The distinct keys of a history, the most recently used last. */
  function Recency<K(==)>(history: seq<K>): seq<K> {
    if history == [] then []
    else
      var last := history[|history| - 1];
      Without(Recency(history[..|history| - 1]), last) + [last]
  }

  function Latest<K>(keys: seq<K>, n: nat): seq<K> {
    if |keys| <= n then keys else keys[|keys| - n..]
  }

  ghost predicate Distinct<K>(keys: seq<K>) {
    forall i, j | 0 <= i < j < |keys| :: keys[i] != keys[j]
  }

  lemma {:induction false} WithoutKeeps<K>(keys: seq<K>, key: K)
    ensures key !in Without(keys, key)
    ensures forall k :: k in Without(keys, key) <==> k in keys && k != key
    ensures |Without(keys, key)| <= |keys|
    ensures key !in keys ==> Without(keys, key) == keys
  {
    if keys != [] {
      WithoutKeeps(keys[1..], key);
      assert keys == [keys[0]] + keys[1..];
    }
  }

  lemma {:induction false} WithoutDistinct<K>(keys: seq<K>, key: K)
    requires Distinct(keys)
    ensures Distinct(Without(keys, key))
  {
    if keys != [] {
      WithoutDistinct(keys[1..], key);
      WithoutKeeps(keys[1..], key);
      assert keys[0] !in keys[1..];
    }
  }

  lemma {:induction false} WithoutSplits<K>(a: seq<K>, b: seq<K>, key: K)
    ensures Without(a + b, key) == Without(a, key) + Without(b, key)
  {
    if a == [] {
      assert a + b == b;
    } else {
      WithoutSplits(a[1..], b, key);
      assert (a + b)[1..] == a[1..] + b;
    }
  }

  lemma {:induction false} RecencyDistinct<K>(history: seq<K>)
    ensures Distinct(Recency(history))
    ensures forall k :: k in Recency(history) <==> k in history
  {
    if history != [] {
      var last := history[|history| - 1];
      RecencyDistinct(history[..|history| - 1]);
      WithoutKeeps(Recency(history[..|history| - 1]), last);
      WithoutDistinct(Recency(history[..|history| - 1]), last);
      assert history == history[..|history| - 1] + [last];
    }
  }

  /** The last time a key was used. */
  function LastUse<K(==)>(history: seq<K>, key: K): (n: nat)
    requires key in history
    ensures n < |history| && history[n] == key && key !in history[n + 1..]
  {
    if history[|history| - 1] == key then |history| - 1
    else
      assert history == history[..|history| - 1] + [history[|history| - 1]];
      LastUse(history[..|history| - 1], key)
  }

  lemma {:induction false} WithoutOrdered<K>(keys: seq<K>, key: K, i: nat, j: nat) returns (a: nat, b: nat)
    requires i < j < |Without(keys, key)|
    ensures a < b < |keys| && keys[a] == Without(keys, key)[i] && keys[b] == Without(keys, key)[j]
  {
    if keys[0] == key {
      a, b := WithoutOrdered(keys[1..], key, i, j);
      a, b := a + 1, b + 1;
    } else if i == 0 {
      WithoutKeeps(keys[1..], key);
      assert Without(keys, key)[j] == Without(keys[1..], key)[j - 1];
      var c := WithoutMember(keys[1..], key, j - 1);
      a, b := 0, c + 1;
    } else {
      a, b := WithoutOrdered(keys[1..], key, i - 1, j - 1);
      a, b := a + 1, b + 1;
    }
  }

  lemma {:induction false} WithoutMember<K>(keys: seq<K>, key: K, i: nat) returns (a: nat)
    requires i < |Without(keys, key)|
    ensures a < |keys| && keys[a] == Without(keys, key)[i] && keys[a] != key
  {
    if keys[0] == key {
      a := WithoutMember(keys[1..], key, i);
      a := a + 1;
    } else if i == 0 {
      a := 0;
    } else {
      a := WithoutMember(keys[1..], key, i - 1);
      a := a + 1;
    }
  }

  /** Recency orders keys by their last use. */
  lemma {:induction false} RecencyOrdered<K>(history: seq<K>, i: nat, j: nat)
    requires i < j < |Recency(history)|
    ensures Recency(history)[i] in history && Recency(history)[j] in history
    ensures LastUse(history, Recency(history)[i]) < LastUse(history, Recency(history)[j])
  {
    RecencyDistinct(history);
    var n := |history| - 1;
    var last, before := history[n], history[..n];
    var rest := Without(Recency(before), last);
    WithoutKeeps(Recency(before), last);
    RecencyDistinct(before);
    assert Recency(history) == rest + [last] && history == before + [last];
    if j < |rest| {
      var a, b := WithoutOrdered(Recency(before), last, i, j);
      RecencyOrdered(before, a, b);
      assert rest[i] in rest && rest[j] in rest;
    } else {
      var a := WithoutMember(Recency(before), last, i);
      assert Recency(before)[a] in before;
    }
  }

  lemma {:induction false} LatestTail<K>(older: seq<K>, newer: seq<K>, n: nat)
    requires |newer| == n || (|newer| < n && older == [])
    ensures Latest(older + newer, n) == newer
  {
    if |newer| < n {
      assert older + newer == newer;
    }
  }

  lemma {:induction false} WithoutOne<K>(keys: seq<K>, key: K)
    requires key in keys && Distinct(keys)
    ensures |Without(keys, key)| == |keys| - 1
  {
    if keys[0] == key {
      WithoutKeeps(keys[1..], key);
      assert key !in keys[1..];
    } else {
      WithoutOne(keys[1..], key);
    }
  }

  lemma {:induction false} RecencyStep<K>(history: seq<K>, key: K)
    ensures Recency(history + [key]) == Without(Recency(history), key) + [key]
  {
    assert (history + [key])[..|history|] == history;
  }

  /** A hit: moving a key among the latest to the back is what its use does to the latest. */
  lemma {:induction false} HitRefreshes<K>(history: seq<K>, key: K, n: nat)
    requires key in Latest(Recency(history), n)
    ensures Latest(Recency(history + [key]), n) == Without(Latest(Recency(history), n), key) + [key]
  {
    var r := Recency(history);
    var newer := Latest(r, n);
    var older := r[..|r| - |newer|];
    RecencyDistinct(history);
    RecencyStep(history, key);
    assert r == older + newer;
    WithoutInTail(older, newer, key);
    LatestTail(older, Without(newer, key) + [key], n);
    assert older + Without(newer, key) + [key] == older + (Without(newer, key) + [key]);
  }

  lemma {:induction false} WithoutInTail<K>(older: seq<K>, newer: seq<K>, key: K)
    requires Distinct(older + newer) && key in newer
    ensures Without(older + newer, key) == older + Without(newer, key)
    ensures |Without(newer, key)| == |newer| - 1
  {
    DistinctParts(older, newer, key);
    WithoutSplits(older, newer, key);
    WithoutKeeps(older, key);
    WithoutOne(newer, key);
  }

  lemma {:induction false} DistinctParts<K>(a: seq<K>, b: seq<K>, key: K)
    requires Distinct(a + b)
    ensures Distinct(b) && (key in b ==> key !in a)
  {
    assert forall i | 0 <= i < |b| :: (a + b)[|a| + i] == b[i];
    assert forall i | 0 <= i < |a| :: (a + b)[i] == a[i];
  }

  /** A miss: a new key at the back pushes out the oldest of a full list. */
  lemma {:induction false} MissAppends<K>(history: seq<K>, key: K, n: nat)
    requires n > 0 && key !in Latest(Recency(history), n)
    ensures Latest(Recency(history + [key]), n) == Latest(Latest(Recency(history), n) + [key], n)
  {
    var r := Recency(history);
    RecencyStep(history, key);
    if |r| <= n {
      WithoutKeeps(r, key);
    } else {
      var older, newer := r[..|r| - n], Latest(r, n);
      assert r == older + newer;
      WithoutSplits(older, newer, key);
      WithoutKeeps(newer, key);
      Slide(Without(older, key), newer, key, n);
    }
  }

  lemma {:induction false} Slide<K>(older: seq<K>, newer: seq<K>, key: K, n: nat)
    requires |newer| == n > 0
    ensures Latest(older + newer + [key], n) == Latest(newer + [key], n) == newer[1..] + [key]
  {
  }
}
