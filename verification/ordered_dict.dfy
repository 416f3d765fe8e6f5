/**
 A Python dict / MongoDB group table as a sequence of entries in insertion
 order: reading, and `d[k] = v`, which keeps an existing key in place.
 */
module OrderedDict {

  datatype Entry<K, V> = Entry(key: K, value: V)

  predicate HasKey<K(==), V>(d: seq<Entry<K, V>>, k: K)
  {
    exists i :: 0 <= i < |d| && d[i].key == k
  }

  predicate DistinctKeys<K(==), V>(d: seq<Entry<K, V>>)
  {
    forall i, j :: 0 <= i < j < |d| ==> d[i].key != d[j].key
  }

  /** Position of key `k`. */
  function IndexOf<K(==), V>(d: seq<Entry<K, V>>, k: K): (i: nat)
    requires HasKey(d, k)
    ensures i < |d| && d[i].key == k
    ensures forall j :: 0 <= j < i ==> d[j].key != k
  {
    if d[0].key == k then 0
    else
      assert HasKey(d[1..], k) by {
        var m :| 0 <= m < |d| && d[m].key == k;
        assert d[1..][m - 1].key == k;
      }
      1 + IndexOf(d[1..], k)
  }

  /** `d[k]` */
  function Get<K(==), V>(d: seq<Entry<K, V>>, k: K): V
    requires HasKey(d, k)
  {
    d[IndexOf(d, k)].value
  }

  /** `d[k] = v`: an existing key keeps its position and only its value changes; a new key goes at the end. */
  function Put<K(==), V>(d: seq<Entry<K, V>>, k: K, v: V): (r: seq<Entry<K, V>>)
    requires DistinctKeys(d)
    ensures DistinctKeys(r)
    ensures HasKey(r, k) && Get(r, k) == v
    ensures |r| == if HasKey(d, k) then |d| else |d| + 1
    ensures forall i :: 0 <= i < |d| ==> r[i].key == d[i].key
    ensures forall i :: 0 <= i < |d| && d[i].key != k ==> r[i] == d[i]
  {
    if HasKey(d, k) then
      var i := IndexOf(d, k);
      var r := d[i := Entry(k, v)];
      assert r[i].key == k;
      assert IndexOf(r, k) == i by {
        assert forall j :: 0 <= j < i ==> r[j].key == d[j].key;
      }
      r
    else
      var r := d + [Entry(k, v)];
      assert r[|d|].key == k;
      assert IndexOf(r, k) == |d| by {
        assert forall j :: 0 <= j < |d| ==> r[j].key == d[j].key;
      }
      r
  }

  /** With distinct keys, looking up the key at position `i` reads that entry. */
  lemma GetAt<K, V>(d: seq<Entry<K, V>>, i: nat)
    requires DistinctKeys(d) && i < |d|
    ensures HasKey(d, d[i].key) && Get(d, d[i].key) == d[i].value
  {
    assert d[i].key == d[i].key;
  }
}
