/**
 `top_tags_by_country` and `top_cuisines_by_country` (analytics_endpoints.py):
 unwind a list field, count each (country, value) pair, sort the counts in
 decreasing order, gather them per country in that order and keep the first
 five of each country.
 MongoDB leaves the order of `$group` output and of equal `$sort` keys open;
 this model groups in first-appearance order and sorts stably, and every
 property stated below holds whatever order is chosen.
 */
module Ranking {
  import opened Models
  import opened OrderedDict

  /** The list field that is unwound. */
  datatype ListField = TopTags | Cuisines

  function ListOf(r: Restaurant, field: ListField): seq<string>
  {
    match field
    case TopTags => r.topTagsList
    case Cuisines => r.cuisinesList
  }

  /** The group key `{"country": ..., "tag": ...}` (or `"cuisine"`). */
  datatype Key = Key(country: string, tag: string)

  // ---------------------------------------------------------------------------
  // $unwind
  // ---------------------------------------------------------------------------

  /** One unwound document per list element of one restaurant. */
  function Expand(country: string, xs: seq<string>): (es: seq<Key>)
    ensures |es| == |xs|
  {
    seq(|xs|, j requires 0 <= j < |xs| => Key(country, xs[j]))
  }

  function Unwind(rs: seq<Restaurant>, field: ListField): seq<Key>
  {
    if rs == [] then []
    else
      var last := rs[|rs| - 1];
      Unwind(rs[..|rs| - 1], field) + Expand(last.country, ListOf(last, field))
  }

  /** How often `t` occurs in the lists of the restaurants of country `c`; repeats within one list count each time. */
  function TagOccurrences(rs: seq<Restaurant>, field: ListField, c: string, t: string): nat
  {
    if rs == [] then 0
    else
      var last := rs[|rs| - 1];
      TagOccurrences(rs[..|rs| - 1], field, c, t)
        + (if last.country == c then multiset(ListOf(last, field))[t] else 0)
  }

  lemma {:induction false} ExpandCounts(country: string, xs: seq<string>, c: string, t: string)
    ensures multiset(Expand(country, xs))[Key(c, t)] == if country == c then multiset(xs)[t] else 0
  {
    if xs != [] {
      var front := xs[..|xs| - 1];
      ExpandCounts(country, front, c, t);
      assert Expand(country, xs) == Expand(country, front) + [Key(country, xs[|xs| - 1])];
      assert xs == front + [xs[|xs| - 1]];
    }
  }

  /** Unwinding yields each (country, value) pair exactly as often as the value occurs in that country's lists. */
  lemma {:induction false} UnwindCounts(rs: seq<Restaurant>, field: ListField, c: string, t: string)
    ensures multiset(Unwind(rs, field))[Key(c, t)] == TagOccurrences(rs, field, c, t)
  {
    if rs != [] {
      var last := rs[|rs| - 1];
      UnwindCounts(rs[..|rs| - 1], field, c, t);
      ExpandCounts(last.country, ListOf(last, field), c, t);
    }
  }

  // ---------------------------------------------------------------------------
  // $group by (country, value) with {"$sum": 1}
  // ---------------------------------------------------------------------------

  type Table = seq<Entry<Key, nat>>

  /** `t[e] = t.get(e, 0) + 1` */
  function Bump(t: Table, e: Key): (r: Table)
    requires DistinctKeys(t)
    ensures DistinctKeys(r)
  {
    Put(t, e, if HasKey(t, e) then Get(t, e) + 1 else 1)
  }

  /** The count table: the keys in order of first appearance. */
  function Tally(es: seq<Key>): (t: Table)
    ensures DistinctKeys(t)
  {
    if es == [] then [] else Bump(Tally(es[..|es| - 1]), es[|es| - 1])
  }

  /** Every entry of `t` holds the positive multiplicity of its key in `m`. */
  predicate CountsOf(t: Table, m: multiset<Key>)
  {
    forall i :: 0 <= i < |t| ==> t[i].value == m[t[i].key] && t[i].value > 0
  }

  /** Every key of `m` has an entry in `t`. */
  predicate Covers(t: Table, m: multiset<Key>)
  {
    forall k :: k in m ==> HasKey(t, k)
  }

  lemma BumpCounts(t: Table, m: multiset<Key>, e: Key)
    requires DistinctKeys(t) && CountsOf(t, m) && Covers(t, m)
    ensures CountsOf(Bump(t, e), m + multiset{e})
    ensures Covers(Bump(t, e), m + multiset{e})
  {
    var v := if HasKey(t, e) then Get(t, e) + 1 else 1;
    var r := Bump(t, e);

    var m' := m + multiset{e};
    forall i | 0 <= i < |r|
      ensures r[i].value == m'[r[i].key] && r[i].value > 0
    {
      if r[i].key != e {
        assert r[i] == t[i];
      }
    }
    forall k | k in m'
      ensures HasKey(r, k)
    {
      if k != e {
        var i :| 0 <= i < |t| && t[i].key == k;
        assert r[i].key == k;
      }
    }
  }

  /** The table holds one entry per distinct key, with the number of times the key occurs. */
  lemma {:induction false} TallyCounts(es: seq<Key>)
    ensures CountsOf(Tally(es), multiset(es))
    ensures Covers(Tally(es), multiset(es))
  {
    if es != [] {
      var front := es[..|es| - 1];
      var e := es[|es| - 1];
      TallyCounts(front);
      assert es == front + [e];
      BumpCounts(Tally(front), multiset(front), e);
    }
  }

  // ---------------------------------------------------------------------------
  // $sort by count, decreasing
  // ---------------------------------------------------------------------------

  predicate SortedByCount(t: Table)
  {
    forall i, j :: 0 <= i < j < |t| ==> t[i].value >= t[j].value
  }

  /** Insert `x` after every entry whose count is at least its own. */
  function Insert(t: Table, x: Entry<Key, nat>): (r: Table)
    ensures multiset(r) == multiset(t) + multiset{x}
  {
    if t == [] then [x]
    else if t[0].value >= x.value then
      assert t == [t[0]] + t[1..];
      [t[0]] + Insert(t[1..], x)
    else
      [x] + t
  }

  predicate CountsAtMost(t: Table, v: nat)
  {
    forall i :: 0 <= i < |t| ==> t[i].value <= v
  }

  lemma {:induction false} InsertBound(t: Table, x: Entry<Key, nat>, v: nat)
    requires CountsAtMost(t, v) && x.value <= v
    ensures CountsAtMost(Insert(t, x), v)
  {
    if t != [] && t[0].value >= x.value {
      InsertBound(t[1..], x, v);
    }
  }

  /** A sorted table stays sorted under a head whose count bounds all of it. */
  lemma ConsSorted(h: Entry<Key, nat>, t: Table)
    requires SortedByCount(t) && CountsAtMost(t, h.value)
    ensures SortedByCount([h] + t)
  {
    var r := [h] + t;
    forall i, j | 0 <= i < j < |r|
      ensures r[i].value >= r[j].value
    {
      assert r[j] == t[j - 1];
      if i > 0 {
        assert r[i] == t[i - 1];
      }
    }
  }

  lemma {:induction false} InsertSorted(t: Table, x: Entry<Key, nat>)
    requires SortedByCount(t)
    ensures SortedByCount(Insert(t, x))
  {
    if t != [] && t[0].value >= x.value {
      assert SortedByCount(t[1..]) && CountsAtMost(t[1..], t[0].value) by {
        forall i | 0 <= i < |t| - 1
          ensures t[1..][i] == t[i + 1]
        {}
      }
      InsertSorted(t[1..], x);
      InsertBound(t[1..], x, t[0].value);
      ConsSorted(t[0], Insert(t[1..], x));
    } else if t != [] {
      assert CountsAtMost(t, x.value) by {
        forall i | 0 <= i < |t|
          ensures t[i].value <= x.value
        {
          assert t[0].value >= t[i].value;
        }
      }
      ConsSorted(x, t);
    }
  }

  /** The `$sort` stage: a permutation of the table in decreasing count order. */
  function SortByCount(t: Table): (r: Table)
    ensures SortedByCount(r)
    ensures multiset(r) == multiset(t)
  {
    if t == [] then []
    else
      assert t == t[..|t| - 1] + [t[|t| - 1]];
      InsertSorted(SortByCount(t[..|t| - 1]), t[|t| - 1]);
      Insert(SortByCount(t[..|t| - 1]), t[|t| - 1])
  }

  // ---------------------------------------------------------------------------
  // $group by country with $push, then $slice 5
  // ---------------------------------------------------------------------------

  /** One pushed element `{"tag": ..., "count": ...}`. */
  datatype TagCount = TagCount(tag: string, count: nat)

  /** Per country, its pushed elements in order. */
  type CountryTable = seq<Entry<string, seq<TagCount>>>

  /** The entries of `t` for country `c`, in order. */
  function OfCountry(t: Table, c: string): (r: Table)
    ensures forall x :: x in r ==> x in t && x.key.country == c
    ensures forall j :: 0 <= j < |t| && t[j].key.country == c ==> t[j] in r
  {
    if t == [] then []
    else
      var front := t[..|t| - 1];
      var last := t[|t| - 1];
      assert forall j :: 0 <= j < |t| - 1 ==> front[j] == t[j];
      OfCountry(front, c) + (if last.key.country == c then [last] else [])
  }

  /** Keeping the entries of one country keeps the order. */
  lemma {:induction false} OfCountrySorted(t: Table, c: string)
    requires SortedByCount(t)
    ensures SortedByCount(OfCountry(t, c))
  {
    if t != [] {
      var front := t[..|t| - 1];
      var last := t[|t| - 1];
      OfCountrySorted(front, c);
      var r := OfCountry(t, c);
      if last.key.country == c {
        forall i | 0 <= i < |r| - 1
          ensures r[i].value >= last.value
        {
          assert r[i] in OfCountry(front, c);
          var j :| 0 <= j < |front| && front[j] == r[i];
        }
      }
    }
  }

  function Pushed(t: Table): (items: seq<TagCount>)
    ensures |items| == |t|
    ensures forall k :: 0 <= k < |t| ==> items[k] == TagCount(t[k].key.tag, t[k].value)
  {
    seq(|t|, k requires 0 <= k < |t| => TagCount(t[k].key.tag, t[k].value))
  }

  /** Append one counted entry to its country's list. */
  function Push(g: CountryTable, b: Entry<Key, nat>): (r: CountryTable)
    requires DistinctKeys(g)
    ensures DistinctKeys(r)
  {
    var c := b.key.country;
    Put(g, c, (if HasKey(g, c) then Get(g, c) else []) + [TagCount(b.key.tag, b.value)])
  }

  /** The `$group` by country with `$push`, over the table in order. */
  function PushAll(t: Table): (g: CountryTable)
    ensures DistinctKeys(g)
  {
    if t == [] then [] else Push(PushAll(t[..|t| - 1]), t[|t| - 1])
  }

  /** Each country of `g` holds its entries of `t`, in order. */
  predicate Gathered(g: CountryTable, t: Table)
  {
    forall i :: 0 <= i < |g| ==> g[i].value != [] && g[i].value == Pushed(OfCountry(t, g[i].key))
  }

  /** Every country of `t` is in `g`. */
  predicate HasCountries(g: CountryTable, t: Table)
  {
    forall x :: x in t ==> HasKey(g, x.key.country)
  }

  lemma PushedSnoc(t: Table, b: Entry<Key, nat>)
    ensures Pushed(t + [b]) == Pushed(t) + [TagCount(b.key.tag, b.value)]
  {
    var l, r := Pushed(t + [b]), Pushed(t) + [TagCount(b.key.tag, b.value)];
    forall k | 0 <= k < |l|
      ensures l[k] == r[k]
    {
      if k < |t| {
        assert (t + [b])[k] == t[k];
      }
    }
  }

  /** The list `Push` stores for the country of `b` is the pushed form of that country's entries. */
  lemma PushedList(g: CountryTable, t: Table, b: Entry<Key, nat>)
    requires DistinctKeys(g) && Gathered(g, t) && HasCountries(g, t)
    ensures var c := b.key.country;
            (if HasKey(g, c) then Get(g, c) else []) + [TagCount(b.key.tag, b.value)]
              == Pushed(OfCountry(t + [b], c))
  {
    var c := b.key.country;
    var t' := t + [b];
    assert t'[..|t'| - 1] == t;
    var before := if HasKey(g, c) then Get(g, c) else [];
    assert before == Pushed(OfCountry(t, c)) by {
      if HasKey(g, c) {
        var i := IndexOf(g, c);
        assert g[i].value == Pushed(OfCountry(t, g[i].key));
      } else if OfCountry(t, c) != [] {
        assert OfCountry(t, c)[0] in OfCountry(t, c);
      }
    }
    assert OfCountry(t', c) == OfCountry(t, c) + [b];
    PushedSnoc(OfCountry(t, c), b);
  }

  lemma PushGathers(g: CountryTable, t: Table, b: Entry<Key, nat>)
    requires DistinctKeys(g) && Gathered(g, t) && HasCountries(g, t)
    ensures Gathered(Push(g, b), t + [b])
  {
    var c := b.key.country;
    var t' := t + [b];
    assert t'[..|t'| - 1] == t;
    PushedList(g, t, b);
    var r := Push(g, b);
    forall i | 0 <= i < |r|
      ensures r[i].value != [] && r[i].value == Pushed(OfCountry(t', r[i].key))
    {
      if r[i].key != c {
        assert r[i] == g[i];
        assert OfCountry(t', r[i].key) == OfCountry(t, r[i].key);
      } else {
        GetAt(r, i);
      }
    }
  }

  lemma PushKeepsCountries(g: CountryTable, t: Table, b: Entry<Key, nat>)
    requires DistinctKeys(g) && HasCountries(g, t)
    ensures HasCountries(Push(g, b), t + [b])
  {
    var r := Push(g, b);
    forall x | x in t + [b]
      ensures HasKey(r, x.key.country)
    {
      if x.key.country != b.key.country {
        assert x in t;
        var i :| 0 <= i < |g| && g[i].key == x.key.country;
        assert r[i].key == x.key.country;
      }
    }
  }

  /** Each country receives its entries in table order, and every country of the table is present. */
  lemma {:induction false} PushAllGathers(t: Table)
    ensures Gathered(PushAll(t), t)
    ensures HasCountries(PushAll(t), t)
  {
    if t != [] {
      var front := t[..|t| - 1];
      PushAllGathers(front);
      assert t == front + [t[|t| - 1]];
      PushGathers(PushAll(front), front, t[|t| - 1]);
      PushKeepsCountries(PushAll(front), front, t[|t| - 1]);
    }
  }

  /** How many elements `$slice` keeps per country. */
  const TopN: nat := 5

  function Slice(g: CountryTable): (out: CountryTable)
    ensures |out| == |g|
    ensures forall i :: 0 <= i < |g| ==> out[i].key == g[i].key
    ensures forall i :: 0 <= i < |g| ==>
              out[i].value <= g[i].value && |out[i].value| == if |g[i].value| <= TopN then |g[i].value| else TopN
  {
    seq(|g|, i requires 0 <= i < |g| =>
      Entry(g[i].key, if |g[i].value| <= TopN then g[i].value else g[i].value[..TopN]))
  }

  /** The whole pipeline over the collection `rs`. */
  function TopByCountry(rs: seq<Restaurant>, field: ListField): CountryTable
  {
    Slice(PushAll(SortByCount(Tally(Unwind(rs, field)))))
  }

  /** `top_tags_by_country()` */
  function TopTagsByCountry(rs: seq<Restaurant>): CountryTable
  {
    TopByCountry(rs, TopTags)
  }

  /** `top_cuisines_by_country()` */
  function TopCuisinesByCountry(rs: seq<Restaurant>): CountryTable
  {
    TopByCountry(rs, Cuisines)
  }

  // ---------------------------------------------------------------------------
  // What the endpoints promise
  // ---------------------------------------------------------------------------

  /** The pipeline up to and including the `$sort` stage. */
  function Sorted(rs: seq<Restaurant>, field: ListField): Table
  {
    SortByCount(Tally(Unwind(rs, field)))
  }

  lemma TopIsSlicedPush(rs: seq<Restaurant>, field: ListField, i: nat)
    requires i < |TopByCountry(rs, field)|
    ensures var g := PushAll(Sorted(rs, field));
            var out := TopByCountry(rs, field);
            var f := Pushed(OfCountry(Sorted(rs, field), out[i].key));
            && |out| == |g| && out[i].key == g[i].key
            && f != []
            && out[i].value == if |f| <= TopN then f else f[..TopN]
  {
    PushAllGathers(Sorted(rs, field));
  }

  /** Each country appears once, with between one and five entries in non-increasing count order. */
  lemma TopShape(rs: seq<Restaurant>, field: ListField)
    ensures var out := TopByCountry(rs, field);
            && DistinctKeys(out)
            && (forall i :: 0 <= i < |out| ==> 0 < |out[i].value| <= TopN && CountsDescending(out[i].value))
  {
    var out := TopByCountry(rs, field);
    var g := PushAll(Sorted(rs, field));
    assert forall i :: 0 <= i < |out| ==> out[i].key == g[i].key;
    forall i | 0 <= i < |out|
      ensures 0 < |out[i].value| <= TopN && CountsDescending(out[i].value)
    {
      TopEntryShape(rs, field, i);
    }
  }

  /** Pushed elements in non-increasing count order. */
  predicate CountsDescending(xs: seq<TagCount>)
  {
    forall k, l :: 0 <= k < l < |xs| ==> xs[k].count >= xs[l].count
  }

  /** The first five pushed elements of a sorted table are in non-increasing count order. */
  lemma PushedPrefixDescending(f: Table)
    requires SortedByCount(f)
    ensures var p := Pushed(f);
            CountsDescending(if |p| <= TopN then p else p[..TopN])
  {
    var p := Pushed(f);
    var top := if |p| <= TopN then p else p[..TopN];
    forall k, l | 0 <= k < l < |top|
      ensures top[k].count >= top[l].count
    {
      assert top[k] == p[k] && top[l] == p[l];
    }
  }

  lemma TopEntryShape(rs: seq<Restaurant>, field: ListField, i: nat)
    requires i < |TopByCountry(rs, field)|
    ensures var e := TopByCountry(rs, field)[i];
            0 < |e.value| <= TopN && CountsDescending(e.value)
  {
    var s := Sorted(rs, field);
    var c := TopByCountry(rs, field)[i].key;
    TopIsSlicedPush(rs, field, i);
    OfCountrySorted(s, c);
    PushedPrefixDescending(OfCountry(s, c));
  }

  /** With distinct keys, an entry occurs at most once. */
  lemma {:induction false} AtMostOnce(t: Table, x: Entry<Key, nat>)
    requires DistinctKeys(t)
    ensures multiset(t)[x] <= 1
  {
    if t != [] {
      var front := t[..|t| - 1];
      var last := t[|t| - 1];
      assert t == front + [last];
      AtMostOnce(front, x);
      if x == last {
        forall j | 0 <= j < |front|
          ensures front[j] != x
        {
          assert front[j] == t[j];
        }
        assert x !in front;
      }
    }
  }

  /** An entry at two positions occurs at least twice. */
  lemma Twice(t: Table, i: nat, j: nat)
    requires i < j < |t| && t[i] == t[j]
    ensures multiset(t)[t[j]] >= 2
  {
    assert t == t[..j] + [t[j]] + t[j + 1..];
    assert t[..j][i] == t[j];
    assert multiset(t[..j])[t[j]] >= 1;
  }

  /** A permutation of a table with distinct keys has distinct keys. */
  lemma PermDistinct(a: Table, b: Table)
    requires DistinctKeys(a) && multiset(a) == multiset(b)
    ensures DistinctKeys(b)
  {
    forall i, j | 0 <= i < j < |b|
      ensures b[i].key != b[j].key
    {
      if b[i] == b[j] {
        Twice(b, i, j);
        AtMostOnce(a, b[j]);
      } else {
        assert b[i] in multiset(a) && b[j] in multiset(a);
        var p :| 0 <= p < |a| && a[p] == b[i];
        var q :| 0 <= q < |a| && a[q] == b[j];
      }
    }
  }

  /** Keeping one country's entries keeps the keys distinct. */
  lemma {:induction false} OfCountryDistinct(t: Table, c: string)
    requires DistinctKeys(t)
    ensures DistinctKeys(OfCountry(t, c))
  {
    if t != [] {
      var front := t[..|t| - 1];
      var last := t[|t| - 1];
      assert DistinctKeys(front) by {
        forall i, j | 0 <= i < j < |front|
          ensures front[i].key != front[j].key
        {
          assert front[i] == t[i] && front[j] == t[j];
        }
      }
      OfCountryDistinct(front, c);
      var r := OfCountry(t, c);
      if last.key.country == c {
        forall i | 0 <= i < |r| - 1
          ensures r[i].key != last.key
        {
          assert r[i] in OfCountry(front, c);
          var j :| 0 <= j < |front| && front[j] == r[i];
          assert front[j] == t[j];
        }
      }
    }
  }

  /**
   A country's list names each value at most once: the `$group` by
   (country, value) leaves one entry per pair.
   */
  lemma TopDistinctTags(rs: seq<Restaurant>, field: ListField, i: nat)
    requires i < |TopByCountry(rs, field)|
    ensures var top := TopByCountry(rs, field)[i].value;
            forall k, l :: 0 <= k < l < |top| ==> top[k].tag != top[l].tag
  {
    var s := Sorted(rs, field);
    var out := TopByCountry(rs, field);
    var c := out[i].key;
    TopIsSlicedPush(rs, field, i);
    PermDistinct(Tally(Unwind(rs, field)), s);
    OfCountryDistinct(s, c);
    var f := OfCountry(s, c);
    var top := out[i].value;
    forall k, l | 0 <= k < l < |top|
      ensures top[k].tag != top[l].tag
    {
      assert top[k] == Pushed(f)[k] && top[l] == Pushed(f)[l];
      assert f[k] in f && f[l] in f;
    }
  }

  /** Every count is the number of times the value occurs in that country's lists, and is positive. */
  lemma TopCounts(rs: seq<Restaurant>, field: ListField, i: nat, k: nat)
    requires i < |TopByCountry(rs, field)| && k < |TopByCountry(rs, field)[i].value|
    ensures var e := TopByCountry(rs, field)[i];
            e.value[k].count == TagOccurrences(rs, field, e.key, e.value[k].tag) > 0
  {
    var out := TopByCountry(rs, field);
    var es := Unwind(rs, field);
    var s := Sorted(rs, field);
    var c := out[i].key;
    TopIsSlicedPush(rs, field, i);
    var f := OfCountry(s, c);
    var x := f[k];
    assert out[i].value[k] == Pushed(f)[k];
    assert x in f;
    assert x in multiset(Tally(es));
    var j :| 0 <= j < |Tally(es)| && Tally(es)[j] == x;
    TallyCounts(es);
    UnwindCounts(rs, field, c, x.key.tag);
    assert x.key == Key(c, x.key.tag);
  }

  /** A value occurring in a country's lists has its counted entry in the sorted table. */
  lemma SortedEntry(rs: seq<Restaurant>, field: ListField, c: string, t: string) returns (x: Entry<Key, nat>)
    requires TagOccurrences(rs, field, c, t) > 0
    ensures x in Sorted(rs, field) && x.key == Key(c, t) && x.value == TagOccurrences(rs, field, c, t)
  {
    var es := Unwind(rs, field);
    var tally := Tally(es);
    UnwindCounts(rs, field, c, t);
    TallyCounts(es);
    assert Key(c, t) in multiset(es);
    var a :| 0 <= a < |tally| && tally[a].key == Key(c, t);
    x := tally[a];
    assert x in multiset(Sorted(rs, field));
  }

  /** The first five of a sorted table either include an entry or all outrank it. */
  lemma FirstFive(f: Table, x: Entry<Key, nat>)
    requires SortedByCount(f) && x in f
    ensures var top := if |Pushed(f)| <= TopN then Pushed(f) else Pushed(f)[..TopN];
            || (exists k :: 0 <= k < |top| && top[k].tag == x.key.tag)
            || (|top| == TopN && forall k :: 0 <= k < |top| ==> top[k].count >= x.value)
  {
    var top := if |Pushed(f)| <= TopN then Pushed(f) else Pushed(f)[..TopN];
    var p :| 0 <= p < |f| && f[p] == x;
    if p < TopN {
      assert top[p] == Pushed(f)[p];
    } else {
      forall k | 0 <= k < |top|
        ensures top[k].count >= x.value
      {
        assert top[k] == Pushed(f)[k];
        assert f[k].value >= f[p].value;
      }
    }
  }

  /** In a sorted table, an entry is listed for its country unless five entries at least as large fill the list. */
  lemma ListedOrOutranked(s: Table, x: Entry<Key, nat>)
    requires SortedByCount(s) && x in s
    ensures var out := Slice(PushAll(s));
            && HasKey(out, x.key.country)
            && var top := Get(out, x.key.country);
               || (exists k :: 0 <= k < |top| && top[k].tag == x.key.tag)
               || (|top| == TopN && forall k :: 0 <= k < |top| ==> top[k].count >= x.value)
  {
    var c := x.key.country;
    var g := PushAll(s);
    var out := Slice(g);
    PushAllGathers(s);
    var i := IndexOf(g, c);
    assert DistinctKeys(out) by {
      assert forall j :: 0 <= j < |out| ==> out[j].key == g[j].key;
    }
    GetAt(out, i);
    var f := OfCountry(s, c);
    assert g[i].value == Pushed(f);
    assert out[i].value == (if |Pushed(f)| <= TopN then Pushed(f) else Pushed(f)[..TopN]);
    assert x in f;
    OfCountrySorted(s, c);
    FirstFive(f, x);
  }

  /**
   The list of a country is really its top five: every value occurring in the
   country's lists is in it, or the list is full and every listed count is at
   least that value's count.
   */
  lemma TopIsTop(rs: seq<Restaurant>, field: ListField, c: string, t: string)
    requires TagOccurrences(rs, field, c, t) > 0
    ensures var out := TopByCountry(rs, field);
            && HasKey(out, c)
            && var top := Get(out, c);
               || (exists k :: 0 <= k < |top| && top[k].tag == t)
               || (|top| == TopN && forall k :: 0 <= k < |top| ==> top[k].count >= TagOccurrences(rs, field, c, t))
  {
    var x := SortedEntry(rs, field, c, t);
    ListedOrOutranked(Sorted(rs, field), x);
  }
}
