/**
 * A JavaScript plain object with string keys, seen as the list of its own
 * properties in enumeration order. For keys that are not array indices that
 * order is insertion order: assigning to an existing key keeps its position,
 * assigning to a new key appends it, and `delete` removes it.
 *
 * The quarters of a schedule (`WorkingSchedule.fall_quarter`, ...) and the
 * modification log are objects of this kind.
 */
module Assoc {
  import opened Wrappers

  datatype Entry<V> = Entry(key: string, val: V)

  /** `o[k]`: the value of the first property named `k`, or `undefined`. */
  function Lookup<V>(o: seq<Entry<V>>, k: string): Option<V>
  {
    if o == [] then None
    else if o[0].key == k then Some(o[0].val)
    else Lookup(o[1..], k)
  }

  /** `k in o`. */
  predicate Has<V>(o: seq<Entry<V>>, k: string)
  {
    Lookup(o, k).Some?
  }

  /** No key occurs twice: what every JavaScript object satisfies. */
  predicate Distinct<V>(o: seq<Entry<V>>)
  {
    forall i, j :: 0 <= i < j < |o| ==> o[i].key != o[j].key
  }

  lemma {:induction false} LookupIsFirst<V>(o: seq<Entry<V>>, k: string, i: nat)
    requires i < |o| && o[i].key == k
    requires forall j :: 0 <= j < i ==> o[j].key != k
    ensures Lookup(o, k) == Some(o[i].val)
  {
    if i > 0 {
      LookupIsFirst(o[1..], k, i - 1);
    }
  }

  lemma {:induction false} LookupFound<V>(o: seq<Entry<V>>, k: string)
    requires Has(o, k)
    ensures exists i :: 0 <= i < |o| && o[i].key == k && o[i].val == Lookup(o, k).value
  {
    if o[0].key != k {
      LookupFound(o[1..], k);
      var i :| 0 <= i < |o[1..]| && o[1..][i].key == k && o[1..][i].val == Lookup(o[1..], k).value;
      assert o[i + 1] == o[1..][i];
    }
  }

  lemma {:induction false} LookupMissing<V>(o: seq<Entry<V>>, k: string)
    requires !Has(o, k)
    ensures forall i :: 0 <= i < |o| ==> o[i].key != k
  {
    if o != [] {
      LookupMissing(o[1..], k);
      assert forall i :: 1 <= i < |o| ==> o[i] == o[1..][i - 1];
    }
  }

  lemma {:induction false} AbsentKey<V>(o: seq<Entry<V>>, k: string)
    requires forall i :: 0 <= i < |o| ==> o[i].key != k
    ensures !Has(o, k)
  {
    if o != [] {
      AbsentKey(o[1..], k);
    }
  }

  /** In an object, the first key does not occur again further on. */
  lemma DistinctTail<V>(o: seq<Entry<V>>)
    requires Distinct(o) && o != []
    ensures Distinct(o[1..]) && !Has(o[1..], o[0].key)
  {
    assert forall i :: 0 <= i < |o[1..]| ==> o[1..][i] == o[i + 1];
    AbsentKey(o[1..], o[0].key);
  }

  /** `o[k] = v`: replaces the value of `k` in place, or appends `k` when it is new. */
  function Put<V>(o: seq<Entry<V>>, k: string, v: V): (r: seq<Entry<V>>)
    ensures Lookup(r, k) == Some(v)
    ensures forall j :: j != k ==> Lookup(r, j) == Lookup(o, j)
    ensures forall e :: e in r ==> e in o || e == Entry(k, v)
    ensures Distinct(o) ==> Distinct(r)
    ensures !Has(o, k) ==> r == o + [Entry(k, v)]
  {
    if o == [] then [Entry(k, v)]
    else if o[0].key == k then [Entry(k, v)] + o[1..]
    else
      var rest := Put(o[1..], k, v);
      assert Distinct(o) ==> Distinct(o[1..]) && Lookup(o[1..], o[0].key) == None by {
        if Distinct(o) {
          assert forall i :: 0 <= i < |o[1..]| ==> o[1..][i] == o[i + 1];
          if Has(o[1..], o[0].key) {
            LookupFound(o[1..], o[0].key);
          }
        }
      }
      assert Distinct(o) ==> Lookup(rest, o[0].key) == None;
      assert Distinct(o) ==> forall i :: 0 <= i < |rest| ==> rest[i].key != o[0].key by {
        if Distinct(o) {
          LookupMissing(rest, o[0].key);
        }
      }
      [o[0]] + rest
  }

  /** `delete o[k]`: removes the property `k`; a missing key is a no-op. */
  function Delete<V>(o: seq<Entry<V>>, k: string): (r: seq<Entry<V>>)
    ensures Lookup(r, k) == None
    ensures forall j :: j != k ==> Lookup(r, j) == Lookup(o, j)
    ensures forall e :: e in r ==> e in o
    ensures !Has(o, k) ==> r == o
  {
    if o == [] then []
    else if o[0].key == k then Delete(o[1..], k)
    else [o[0]] + Delete(o[1..], k)
  }

  lemma {:induction false} DeleteDistinct<V>(o: seq<Entry<V>>, k: string)
    requires Distinct(o)
    ensures Distinct(Delete(o, k))
  {
    if o != [] {
      assert Distinct(o[1..]) by {
        assert forall i :: 0 <= i < |o[1..]| ==> o[1..][i] == o[i + 1];
      }
      DeleteDistinct(o[1..], k);
      var rest := Delete(o[1..], k);
      if o[0].key != k {
        var r := [o[0]] + rest;
        assert Delete(o, k) == r;
        forall i, j | 0 <= i < j < |r| ensures r[i].key != r[j].key {
          assert r[j] == rest[j - 1];
          if i == 0 {
            assert rest[j - 1] in o[1..];
            var m :| 0 <= m < |o[1..]| && o[1..][m] == rest[j - 1];
            assert o[m + 1] == rest[j - 1];
          } else {
            assert r[i] == rest[i - 1];
          }
        }
      }
    }
  }

  /** Adding a fresh key and deleting it again gives back the original object. */
  lemma {:induction false} DeletePutFresh<V>(o: seq<Entry<V>>, k: string, v: V)
    requires !Has(o, k)
    ensures Delete(Put(o, k, v), k) == o
  {
    if o == [] {
      assert Put(o, k, v) == [Entry(k, v)];
      assert Put(o, k, v)[1..] == [];
    } else {
      var r := Put(o, k, v);
      assert r == o + [Entry(k, v)];
      assert o[0].key != k;
      assert !Has(o[1..], k) by {
        assert Lookup(o, k) == Lookup(o[1..], k);
      }
      assert r[1..] == o[1..] + [Entry(k, v)];
      assert Put(o[1..], k, v) == o[1..] + [Entry(k, v)];
      DeletePutFresh(o[1..], k, v);
      assert Delete(r, k) == [o[0]] + Delete(r[1..], k);
      assert [o[0]] + o[1..] == o;
    }
  }
}
