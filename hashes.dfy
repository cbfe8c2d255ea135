/** The Ruby Hash operations the client relies on, over insertion-ordered
    entries: `h[k]`, `h[k] = v`, `h.delete(k)`, `h.merge(other)` and
    `h.select { ... }`. A Hash built by Ruby never holds a key twice, which
    `Unique` states; the lemmas show that every operation keeps it. */
module RubyHash {
  import opened RubyValues

  /** No key occurs twice. */
  predicate Unique(h: Entries) {
    forall i, j :: 0 <= i < j < |h| ==> h[i].0 != h[j].0
  }

  /** `r` is obtained from `h` by deleting entries, keeping the order of the rest. */
  predicate Subsequence(r: Entries, h: Entries) {
    r == [] || (h != [] && ((r[0] == h[0] && Subsequence(r[1..], h[1..])) || Subsequence(r, h[1..])))
  }

  /** `h.keys`, in insertion order. */
  function Keys(h: Entries): (ks: seq<Key>)
    ensures |ks| == |h| && forall i :: 0 <= i < |h| ==> ks[i] == h[i].0
  {
    seq(|h|, i requires 0 <= i < |h| => h[i].0)
  }

  /** The value stored under `k`, if `k` is a key (`fetch`). */
  function Find(h: Entries, k: Key): Option<Value> {
    if h == [] then None
    else if h[0].0 == k then Some(h[0].1)
    else Find(h[1..], k)
  }

  /** `h.key?(k)` */
  predicate HasKey(h: Entries, k: Key) {
    Find(h, k).Some?
  }

  /** `h[k]`: the stored value, or `nil` when `k` is not a key. */
  function Get(h: Entries, k: Key): (v: Value)
    ensures HasKey(h, k) ==> Find(h, k) == Some(v)
    ensures !HasKey(h, k) ==> v == Nil
  {
    match Find(h, k)
    case None => Nil
    case Some(v) => v
  }

  /** Position of the first entry with key `k`. */
  function IndexOf(h: Entries, k: Key): (r: Option<nat>)
    ensures r.Some? ==> r.value < |h| && h[r.value].0 == k
    ensures r.Some? ==> forall j :: 0 <= j < r.value ==> h[j].0 != k
    ensures r.None? ==> forall j :: 0 <= j < |h| ==> h[j].0 != k
  {
    if h == [] then None
    else if h[0].0 == k then Some(0)
    else match IndexOf(h[1..], k)
      case None => None
      case Some(i) => Some(i + 1)
  }

  /** A key is present exactly when some entry carries it, and the value
      found is the one of the first such entry. */
  lemma {:induction false} FindIndexOf(h: Entries, k: Key)
    ensures HasKey(h, k) <==> IndexOf(h, k).Some?
    ensures HasKey(h, k) ==> Find(h, k) == Some(h[IndexOf(h, k).value].1)
  {
    if h != [] && h[0].0 != k {
      FindIndexOf(h[1..], k);
    }
  }

  /** In a Hash with unique keys, every entry is what a lookup of its key finds. */
  lemma {:induction false} FindEntry(h: Entries, i: nat)
    requires Unique(h) && i < |h|
    ensures Find(h, h[i].0) == Some(h[i].1)
  {
    if i > 0 {
      FindEntry(h[1..], i - 1);
    }
  }

  /** A one-entry Hash holds its key and nothing else. */
  lemma FindSingleton(k: Key, v: Value, k': Key)
    ensures Find([(k, v)], k') == if k' == k then Some(v) else None
  {
    assert [(k, v)][1..] == [];
  }

  /** A lookup in `a + b` finds `a`'s entry first. */
  lemma {:induction false} FindConcat(a: Entries, b: Entries, k: Key)
    ensures Find(a + b, k) == if HasKey(a, k) then Find(a, k) else Find(b, k)
  {
    if a != [] {
      assert (a + b)[1..] == a[1..] + b;
      FindConcat(a[1..], b, k);
    } else {
      assert a + b == b;
    }
  }

  /** A key is present exactly when some entry carries it, whatever its value. */
  lemma HasKeyMember(h: Entries, k: Key)
    ensures HasKey(h, k) <==> exists v :: (k, v) in h
  {
    FindIndexOf(h, k);
    if exists v :: (k, v) in h {
      var v :| (k, v) in h;
      var i :| 0 <= i < |h| && h[i] == (k, v);
      assert h[i].0 == k;
    }
    if HasKey(h, k) {
      var i := IndexOf(h, k).value;
      assert (k, h[i].1) in h;
    }
  }

  /** In a Hash with unique keys, an entry `(k, v)` is what a lookup of `k` finds. */
  lemma FindMember(h: Entries, k: Key, v: Value)
    requires Unique(h) && (k, v) in h
    ensures Find(h, k) == Some(v)
  {
    var i :| 0 <= i < |h| && h[i] == (k, v);
    FindEntry(h, i);
  }

  /** `h[k] = v`: replaces the value in place when `k` is a key, appends otherwise. */
  function Store(h: Entries, k: Key, v: Value): Entries {
    if h == [] then [(k, v)]
    else if h[0].0 == k then [(k, v)] + h[1..]
    else [h[0]] + Store(h[1..], k, v)
  }

  /** After `h[k] = v`, `h[k]` is `v` and every other key reads as before. */
  lemma {:induction false} StoreFind(h: Entries, k: Key, v: Value, k': Key)
    ensures Find(Store(h, k, v), k') == if k' == k then Some(v) else Find(h, k')
  {
    if h != [] && h[0].0 != k {
      StoreFind(h[1..], k, v, k');
      assert Store(h, k, v)[1..] == Store(h[1..], k, v);
    }
  }

  /** `h[k] = v` keeps the position of an existing key and appends a new one. */
  lemma {:induction false} StoreShape(h: Entries, k: Key, v: Value)
    ensures match IndexOf(h, k)
      case Some(i) => Store(h, k, v) == h[i := (k, v)]
      case None => Store(h, k, v) == h + [(k, v)]
  {
    FindIndexOf(h, k);
    if h != [] && h[0].0 != k {
      StoreShape(h[1..], k, v);
    }
  }

  /** Every consequence of `h[k] = v` at once: the new reading of each key and the new key order. */
  lemma StoreAll(h: Entries, k: Key, v: Value)
    ensures Find(Store(h, k, v), k) == Some(v)
    ensures forall k' :: k' != k ==> Find(Store(h, k, v), k') == Find(h, k')
    ensures Keys(Store(h, k, v)) == if HasKey(h, k) then Keys(h) else Keys(h) + [k]
  {
    forall k' {
      StoreFind(h, k, v, k');
    }
    StoreShape(h, k, v);
    FindIndexOf(h, k);
  }

  /** Storing under a new key appends. */
  lemma StoreNew(h: Entries, k: Key, v: Value)
    requires forall e :: e in h ==> e.0 != k
    ensures Store(h, k, v) == h + [(k, v)]
  {
    StoreShape(h, k, v);
    forall j | 0 <= j < |h|
      ensures h[j].0 != k
    {
      assert h[j] in h;
    }
  }

  lemma StoreUnique(h: Entries, k: Key, v: Value)
    requires Unique(h)
    ensures Unique(Store(h, k, v))
  {
    StoreShape(h, k, v);
    FindIndexOf(h, k);
  }

  /** `h.delete(k)` on a copy: the entry with key `k` is removed. */
  function Delete(h: Entries, k: Key): Entries {
    if h == [] then []
    else if h[0].0 == k then Delete(h[1..], k)
    else [h[0]] + Delete(h[1..], k)
  }

  /** After `h.delete(k)`, `k` is gone and every other key reads as before. */
  lemma {:induction false} DeleteFind(h: Entries, k: Key, k': Key)
    ensures Find(Delete(h, k), k') == if k' == k then None else Find(h, k')
  {
    if h != [] {
      DeleteFind(h[1..], k, k');
      if h[0].0 != k {
        assert Delete(h, k)[1..] == Delete(h[1..], k);
      }
    }
  }

  /** Deleting removes the one entry carrying `k` and leaves the others in order. */
  lemma {:induction false} DeleteShape(h: Entries, k: Key)
    requires Unique(h)
    ensures match IndexOf(h, k)
      case Some(i) => Delete(h, k) == h[..i] + h[i + 1..]
      case None => Delete(h, k) == h
  {
    FindIndexOf(h, k);
    if h == [] {
    } else if h[0].0 == k {
      NotPresentDelete(h[1..], k);
    } else {
      DeleteShape(h[1..], k);
      FindIndexOf(h[1..], k);
    }
  }

  lemma {:induction false} NotPresentDelete(h: Entries, k: Key)
    requires forall j :: 0 <= j < |h| ==> h[j].0 != k
    ensures Delete(h, k) == h
  {
    if h != [] {
      NotPresentDelete(h[1..], k);
    }
  }

  /** `a.merge(b)`: `b`'s entries stored one after the other into a copy of `a`. */
  function Merge(a: Entries, b: Entries): Entries
    decreases |b|
  {
    if b == [] then a
    else Merge(Store(a, b[0].0, b[0].1), b[1..])
  }

  /** In `a.merge(b)` the value from `b` wins on a shared key; keys only in `a` keep their values. */
  lemma {:induction false} MergeFind(a: Entries, b: Entries, k: Key)
    requires Unique(b)
    ensures Find(Merge(a, b), k) == if HasKey(b, k) then Find(b, k) else Find(a, k)
    decreases |b|
  {
    if b != [] {
      MergeFind(Store(a, b[0].0, b[0].1), b[1..], k);
      StoreFind(a, b[0].0, b[0].1, k);
      if k == b[0].0 {
        FindIndexOf(b[1..], k);
      }
    }
  }

  lemma MergeFindAll(a: Entries, b: Entries)
    ensures Unique(b) ==> forall k :: Find(Merge(a, b), k) == if HasKey(b, k) then Find(b, k) else Find(a, k)
  {
    if Unique(b) {
      forall k {
        MergeFind(a, b, k);
      }
    }
  }

  /** `a.merge(b)` keeps `a`'s keys at their positions and appends only keys of `b`. */
  lemma {:induction false} MergeShape(a: Entries, b: Entries)
    ensures |a| <= |Merge(a, b)|
    ensures forall i :: 0 <= i < |a| ==> Merge(a, b)[i].0 == a[i].0
    ensures forall i :: |a| <= i < |Merge(a, b)| ==> HasKey(b, Merge(a, b)[i].0)
    decreases |b|
  {
    if b != [] {
      var a' := Store(a, b[0].0, b[0].1);
      StoreShape(a, b[0].0, b[0].1);
      MergeShape(a', b[1..]);
      var r := Merge(a, b);
      forall i | |a| <= i < |r|
        ensures HasKey(b, r[i].0)
      {
        if i < |a'| {
          assert r[i].0 == b[0].0;
        } else {
          assert HasKey(b[1..], r[i].0);
          if r[i].0 != b[0].0 {
            assert Find(b, r[i].0) == Find(b[1..], r[i].0);
          }
        }
      }
    }
  }

  /** `h.select { |k, v| keep((k, v)) }`, non-destructive. */
  function Select(h: Entries, keep: ((Key, Value)) -> bool): Entries {
    if h == [] then []
    else if keep(h[0]) then [h[0]] + Select(h[1..], keep)
    else Select(h[1..], keep)
  }

  /** `select` keeps exactly the entries satisfying the block, in their original order. */
  lemma {:induction false} SelectContents(h: Entries, keep: ((Key, Value)) -> bool)
    ensures forall e :: e in Select(h, keep) <==> e in h && keep(e)
    ensures Subsequence(Select(h, keep), h)
  {
    if h != [] {
      SelectContents(h[1..], keep);
      assert forall e :: e in h <==> e == h[0] || e in h[1..];
      if keep(h[0]) {
        assert Select(h, keep)[1..] == Select(h[1..], keep);
      }
    }
  }

  /** Selecting on the key alone: a key survives exactly when the block keeps it, with its value. */
  lemma {:induction false} SelectByKeyFind(h: Entries, keep: ((Key, Value)) -> bool, k: Key)
    requires forall v, w :: keep((k, v)) == keep((k, w))
    ensures Find(Select(h, keep), k) == if HasKey(h, k) && keep((k, Get(h, k))) then Find(h, k) else None
  {
    if h != [] {
      SelectByKeyFind(h[1..], keep, k);
    }
  }

  lemma {:induction false} SelectUnique(h: Entries, keep: ((Key, Value)) -> bool)
    requires Unique(h)
    ensures Unique(Select(h, keep))
  {
    if h != [] {
      SelectUnique(h[1..], keep);
      SelectContents(h[1..], keep);
      var r := Select(h, keep);
      if keep(h[0]) {
        assert r[1..] == Select(h[1..], keep);
        forall j | 0 < j < |r|
          ensures r[0].0 != r[j].0
        {
          assert r[j] in h[1..];
        }
      }
    }
  }
}
