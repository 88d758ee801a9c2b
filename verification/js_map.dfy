/** The JavaScript `Map` that holds a room's participants, modelled as a list
    of entries in insertion order. Order matters: the server hands the doctor
    the participants in the order the map iterates them. */
module JsMap {

  datatype Option<T> = None | Some(value: T)

  /** The keys that have an entry. */
  function Keys<K, V>(m: seq<(K, V)>): set<K> {
    set i | 0 <= i < |m| :: m[i].0
  }

  lemma KeysCons<K, V>(m: seq<(K, V)>)
    requires m != []
    ensures Keys(m) == {m[0].0} + Keys(m[1..])
  {
    forall k | k in Keys(m) ensures k in {m[0].0} + Keys(m[1..]) {
      var i :| 0 <= i < |m| && m[i].0 == k;
      if i > 0 {
        assert m[1..][i - 1].0 == k;
      }
    }
    forall k | k in Keys(m[1..]) ensures k in Keys(m) {
      var i :| 0 <= i < |m[1..]| && m[1..][i].0 == k;
      assert m[i + 1].0 == k;
    }
  }

  /** No key has two entries: the shape every JavaScript `Map` has. */
  predicate UniqueKeys<K(==, !new), V>(m: seq<(K, V)>) {
    forall i, j :: 0 <= i < j < |m| ==> m[i].0 != m[j].0
  }

  /** In a map without repeated keys, the first key does not recur in the rest. */
  lemma UniqueHead<K(!new), V>(m: seq<(K, V)>)
    requires m != [] && UniqueKeys(m)
    ensures m[0].0 !in Keys(m[1..]) && UniqueKeys(m[1..])
  {
  }

  /** `Map.prototype.get`, with `undefined` as `None`. */
  function Get<K(==, !new), V>(m: seq<(K, V)>, k: K): (r: Option<V>)
    ensures r.None? <==> k !in Keys(m)
    ensures r.Some? ==> (k, r.value) in m
  {
    if m == [] then None
    else if m[0].0 == k then Some(m[0].1)
    else Get(m[1..], k)
  }

  /** In a map without repeated keys, looking up an entry's key finds that entry. */
  lemma {:induction false} GetAt<K(!new), V>(m: seq<(K, V)>, i: nat)
    requires UniqueKeys(m) && i < |m|
    ensures Get(m, m[i].0) == Some(m[i].1)
  {
    if i > 0 {
      UniqueHead(m);
      GetAt(m[1..], i - 1);
    }
  }

  /** `Map.prototype.set`: a key already present keeps its place and takes the
      new value; a new key is appended at the end. */
  function Set<K(==, !new), V>(m: seq<(K, V)>, k: K, v: V): (r: seq<(K, V)>)
    ensures Keys(r) == Keys(m) + {k}
    ensures Get(r, k) == Some(v)
    ensures forall k' :: k' != k ==> Get(r, k') == Get(m, k')
    ensures k !in Keys(m) ==> r == m + [(k, v)]
  {
    if m == [] then
      assert Keys([(k, v)]) == {k} by {
        KeysCons([(k, v)]);
      }
      [(k, v)]
    else if m[0].0 == k then
      var r := [(k, v)] + m[1..];
      assert r[0] == (k, v) && r[1..] == m[1..];
      assert k in Keys(m) && Keys(r) == Keys(m) + {k} by {
        KeysCons(m);
        KeysCons(r);
      }
      r
    else
      var rest := Set(m[1..], k, v);
      var r := [m[0]] + rest;
      assert r[1..] == rest;
      assert r[0] == m[0];
      assert Keys(r) == Keys(m) + {k} by {
        KeysCons(m);
        KeysCons(r);
      }
      assert k !in Keys(m) ==> r == m + [(k, v)] by {
        if k !in Keys(m) {
          KeysCons(m);
          assert m == [m[0]] + m[1..];
        }
      }
      r
  }

  /** `set` never creates a second entry for a key. */
  lemma {:induction false} SetKeepsUnique<K(!new), V>(m: seq<(K, V)>, k: K, v: V)
    requires UniqueKeys(m)
    ensures UniqueKeys(Set(m, k, v))
  {
    if m != [] && m[0].0 != k {
      var rest := Set(m[1..], k, v);
      UniqueHead(m);
      SetKeepsUnique(m[1..], k, v);
      assert Set(m, k, v) == [m[0]] + rest;
      forall i, j | 0 <= i < j < |[m[0]] + rest|
        ensures ([m[0]] + rest)[i].0 != ([m[0]] + rest)[j].0
      {
        if i == 0 {
          assert rest[j - 1].0 in Keys(rest);
        }
      }
    }
  }

  /** `set` on a key that is already present changes no entry's position. */
  lemma {:induction false} SetKeepsPlace<K(!new), V>(m: seq<(K, V)>, k: K, v: V)
    requires k in Keys(m)
    ensures |Set(m, k, v)| == |m|
    ensures forall i :: 0 <= i < |m| ==> Set(m, k, v)[i].0 == m[i].0
  {
    KeysCons(m);
    if m[0].0 != k {
      SetKeepsPlace(m[1..], k, v);
    }
  }

  /** `Map.prototype.delete`: the entry for `k`, if any, goes; the others keep
      their order. */
  function Delete<K(==, !new), V>(m: seq<(K, V)>, k: K): (r: seq<(K, V)>)
    ensures Keys(r) == Keys(m) - {k}
    ensures Get(r, k) == None
    ensures forall k' :: k' != k ==> Get(r, k') == Get(m, k')
    ensures UniqueKeys(m) ==> UniqueKeys(r)
    ensures k !in Keys(m) ==> r == m
    ensures |r| <= |m|
  {
    if m == [] then []
    else
      var rest := Delete(m[1..], k);
      KeysCons(m);
      if m[0].0 == k then rest
      else
        KeysCons([m[0]] + rest);
        assert ([m[0]] + rest)[1..] == rest;
        assert k !in Keys(m) ==> [m[0]] + rest == m by {
          assert m == [m[0]] + m[1..];
        }
        assert UniqueKeys(m) ==> UniqueKeys([m[0]] + rest) by {
          if UniqueKeys(m) {
            UniqueHead(m);
            forall i, j | 0 <= i < j < |[m[0]] + rest|
              ensures ([m[0]] + rest)[i].0 != ([m[0]] + rest)[j].0
            {
              if i == 0 {
                assert rest[j - 1].0 in Keys(rest);
              }
            }
          }
        }
        [m[0]] + rest
  }

  /** `delete` of a present key removes exactly that key's one entry and
      leaves every other entry where it was relative to the rest. */
  lemma {:induction false} DeleteKeepsOrder<K(!new), V>(m: seq<(K, V)>, k: K)
    requires UniqueKeys(m) && k in Keys(m)
    ensures exists i :: 0 <= i < |m| && m[i].0 == k && Delete(m, k) == m[..i] + m[i + 1..]
  {
    KeysCons(m);
    if m[0].0 == k {
      assert Delete(m, k) == m[..0] + m[0 + 1..] by {
        UniqueHead(m);
      }
    } else {
      var t := m[1..];
      DeleteKeepsOrder(t, k);
      var j :| 0 <= j < |t| && t[j].0 == k && Delete(t, k) == t[..j] + t[j + 1..];
      SpliceAfterHead(m, j);
      assert Delete(m, k) == [m[0]] + Delete(t, k);
      assert m[j + 1].0 == k;
    }
  }

  /** Removing the element after position `j` of the tail and then putting
      the head back removes the element at `j + 1` of the whole. */
  lemma SpliceAfterHead<T>(m: seq<T>, j: nat)
    requires j + 1 < |m|
    ensures [m[0]] + (m[1..][..j] + m[1..][j + 1..]) == m[..j + 1] + m[j + 2..]
  {
    assert m[..j + 1] == [m[0]] + m[1..][..j];
  }

  /** Deleting the key that `set` has just added, when it was not there
      before, gives back the map as it was. */
  lemma {:induction false} DeleteUndoesSet<K(!new), V>(m: seq<(K, V)>, k: K, v: V)
    requires k !in Keys(m)
    ensures Delete(Set(m, k, v), k) == m
  {
    DeleteAppended(m, k, v);
  }

  lemma {:induction false} DeleteAppended<K(!new), V>(m: seq<(K, V)>, k: K, v: V)
    requires k !in Keys(m)
    ensures Delete(m + [(k, v)], k) == m
  {
    if m == [] {
      assert [] + [(k, v)] == [(k, v)];
    } else {
      assert (m + [(k, v)])[1..] == m[1..] + [(k, v)];
      KeysCons(m);
      DeleteAppended(m[1..], k, v);
      assert [m[0]] + m[1..] == m;
    }
  }
}
