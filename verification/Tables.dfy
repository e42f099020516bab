/** A table with a primary key: rows in insertion order, at most one per key. */
module Tables {
  import opened Wrappers

  datatype Entry<K, V> = Entry(key: K, value: V)

  ghost predicate UniqueKeys<K, V>(t: seq<Entry<K, V>>) {
    forall i, j | 0 <= i < j < |t| :: t[i].key != t[j].key
  }

  function Lookup<K(==), V>(t: seq<Entry<K, V>>, k: K): Option<V> {
    if t == [] then None
    else if t[0].key == k then Some(t[0].value)
    else Lookup(t[1..], k)
  }

  /** Insert, or on a key conflict update in place. */
  function Put<K(==), V>(t: seq<Entry<K, V>>, k: K, v: V): seq<Entry<K, V>> {
    if t == [] then [Entry(k, v)]
    else if t[0].key == k then [Entry(k, v)] + t[1..]
    else [t[0]] + Put(t[1..], k, v)
  }

  lemma {:induction false} LookupPut<K, V>(t: seq<Entry<K, V>>, k: K, v: V, q: K)
    ensures Lookup(Put(t, k, v), q) == if q == k then Some(v) else Lookup(t, q)
  {
    if t != [] && t[0].key != k {
      LookupPut(t[1..], k, v, q);
    }
  }

  lemma {:induction false} LookupIsMembership<K, V>(t: seq<Entry<K, V>>, k: K, v: V)
    requires UniqueKeys(t)
    ensures Lookup(t, k) == Some(v) <==> Entry(k, v) in t
    ensures Lookup(t, k) == None <==> forall e | e in t :: e.key != k
  {
    if t != [] {
      assert t == [t[0]] + t[1..];
      LookupIsMembership(t[1..], k, v);
    }
  }

  lemma {:induction false} PutKeeps<K, V>(t: seq<Entry<K, V>>, k: K, v: V)
    requires UniqueKeys(t)
    ensures UniqueKeys(Put(t, k, v))
    ensures Entry(k, v) in Put(t, k, v)
    ensures forall e | e in Put(t, k, v) :: e == Entry(k, v) || (e in t && e.key != k)
    ensures forall e | e in t && e.key != k :: e in Put(t, k, v)
  {
    if t != [] {
      assert t == [t[0]] + t[1..];
      if t[0].key == k {
        forall e | e in t[1..] ensures e.key != k {
          var j :| 0 <= j < |t[1..]| && t[1..][j] == e;
          assert t[0].key != t[j + 1].key;
        }
      } else {
        PutKeeps(t[1..], k, v);
        forall e | e in Put(t[1..], k, v) ensures e.key != t[0].key {
          if e != Entry(k, v) {
            var m :| 0 <= m < |t[1..]| && t[1..][m] == e;
            assert t[0].key != t[m + 1].key;
          }
        }
      }
    }
  }

  /** A fresh key goes to the end. */
  lemma {:induction false} PutFresh<K, V>(t: seq<Entry<K, V>>, k: K, v: V)
    requires forall e | e in t :: e.key != k
    ensures Put(t, k, v) == t + [Entry(k, v)]
  {
    if t != [] {
      PutFresh(t[1..], k, v);
      assert t == [t[0]] + t[1..];
    }
  }
}
