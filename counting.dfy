/** Counting keys with a JavaScript `Map` (`m.set(k, (m.get(k) || 0) + 1)`),
    reading the entries back in insertion order, and the two orderings the
    pages put on them: by count descending (then `slice(0, n)`), and by key. */
module Counting {
  import opened Seqs
  import opened Text

  /** One `[key, count]` pair of `Array.from(m.entries())`. */
  datatype Entry = Entry(key: string, count: nat)

  /** The distinct keys of `ks` in order of first occurrence: the iteration
      order of a `Map` filled from `ks`. */
  function Distinct(ks: seq<string>): (r: seq<string>)
    ensures forall k :: k in r <==> k in ks
    ensures forall i, j :: 0 <= i < j < |r| ==> r[i] != r[j]
  {
    if ks == [] then []
    else
      var d := Distinct(ks[..|ks| - 1]);
      var k := ks[|ks| - 1];
      if k in d then d else d + [k]
  }

  /** Adding a key extends the first-occurrence order only when the key is new. */
  lemma DistinctSnoc(ks: seq<string>, k: string)
    ensures Distinct(ks + [k]) == if k in ks then Distinct(ks) else Distinct(ks) + [k]
  {
    assert (ks + [k])[..|ks|] == ks;
  }

  function EntriesOf(d: seq<string>, m: multiset<string>): (r: seq<Entry>)
    ensures |r| == |d|
    ensures forall i :: 0 <= i < |d| ==> r[i] == Entry(d[i], m[d[i]])
  {
    if d == [] then [] else [Entry(d[0], m[d[0]])] + EntriesOf(d[1..], m)
  }

  /** The entries of a `Map` that counted the keys `ks`: every distinct key
      once, in first-occurrence order, with the number of its occurrences. */
  function Tally(ks: seq<string>): seq<Entry>
  {
    EntriesOf(Distinct(ks), multiset(ks))
  }

  function Key(e: Entry): string { e.key }

  function Total(es: seq<Entry>): nat
  {
    if es == [] then 0 else es[0].count + Total(es[1..])
  }

  /** The entries hold each key of `ks` exactly once, with its exact count,
      which is at least one; and no other key. */
  lemma TallyExact(ks: seq<string>)
    ensures DistinctBy(Tally(ks), Key)
    ensures forall e :: e in Tally(ks) ==> e.key in ks && e.count == multiset(ks)[e.key] && e.count >= 1
    ensures forall k :: k in ks ==> Entry(k, multiset(ks)[k]) in Tally(ks)
  {
    var d := Distinct(ks);
    var t := Tally(ks);
    forall k | k in ks ensures Entry(k, multiset(ks)[k]) in t {
      var i :| 0 <= i < |d| && d[i] == k;
      assert t[i] == Entry(k, multiset(ks)[k]);
    }
  }

  lemma {:induction false} TotalAppend(d: seq<string>, x: string, m: multiset<string>)
    ensures Total(EntriesOf(d + [x], m)) == Total(EntriesOf(d, m)) + m[x]
  {
    if d != [] {
      assert (d + [x])[1..] == d[1..] + [x];
      TotalAppend(d[1..], x, m);
    }
  }

  lemma {:induction false} TotalAdd(d: seq<string>, m: multiset<string>, x: string)
    requires forall i, j :: 0 <= i < j < |d| ==> d[i] != d[j]
    ensures Total(EntriesOf(d, m + multiset{x})) == Total(EntriesOf(d, m)) + (if x in d then 1 else 0)
  {
    if d != [] {
      TotalAdd(d[1..], m, x);
      if d[0] == x {
        assert x !in d[1..];
      }
    }
  }

  /** Every counted key is accounted for: the counts add up to the number of keys. */
  lemma {:induction false} TallyTotal(ks: seq<string>)
    ensures Total(Tally(ks)) == |ks|
  {
    if ks != [] {
      var ks' := ks[..|ks| - 1];
      var x := ks[|ks| - 1];
      var d := Distinct(ks');
      assert ks == ks' + [x];
      TallyTotal(ks');
      TotalAdd(d, multiset(ks'), x);
      if x !in d {
        TotalAppend(d, x, multiset(ks));
      }
    }
  }

  // ---------------------------------------------------------------- the counter

  /** A `Map` from key to count, filled one key at a time. `seen` is the
      sequence of keys added so far. */
  class Counter {
    var order: seq<string>
    var counts: map<string, nat>
    ghost var seen: seq<string>

    ghost predicate Valid()
      reads this
    {
      && order == Distinct(seen)
      && (forall k :: k in counts <==> k in seen)
      && (forall k :: k in counts ==> counts[k] == multiset(seen)[k])
    }

    /** `new Map()`. */
    constructor ()
      ensures Valid() && seen == []
    {
      order := [];
      counts := map[];
      seen := [];
    }

    /** `m.set(key, (m.get(key) || 0) + 1)`. */
    method Add(key: string)
      requires Valid()
      modifies this
      ensures Valid() && seen == old(seen) + [key]
    {
      DistinctSnoc(seen, key);
      if key in counts {
        counts := counts[key := counts[key] + 1];
      } else {
        order := order + [key];
        counts := counts[key := 1];
      }
      seen := seen + [key];
    }

    /** `Array.from(m.entries())`: the tally of every key added so far. */
    function Entries(): (r: seq<Entry>)
      requires Valid()
      reads this
      ensures r == Tally(seen)
    {
      var o, c := order, counts;
      seq(|o|, i requires 0 <= i < |o| => Entry(o[i], if o[i] in c then c[o[i]] else 0))
    }
  }

  // ---------------------------------------------------------------- orderings

  /** `(a, b) => b[1] - a[1] <= 0`: larger counts first. */
  predicate CountGe(a: Entry, b: Entry) { a.count >= b.count }

  /** `(a, b) => String(a[0]).localeCompare(String(b[0])) <= 0`. */
  predicate KeyLe(a: Entry, b: Entry) { StrLe(a.key, b.key) }

  lemma CountGeIsPreorder()
    ensures TotalPreorder(CountGe)
  {
  }

  lemma KeyLeIsPreorder()
    ensures TotalPreorder(KeyLe)
  {
    forall a: Entry, b: Entry ensures KeyLe(a, b) || KeyLe(b, a) {
      StrLeTotal(a.key, b.key);
    }
    forall a: Entry, b: Entry, c: Entry | KeyLe(a, b) && KeyLe(b, c) ensures KeyLe(a, c) {
      StrLeTransitive(a.key, b.key, c.key);
    }
  }

  /** `entries.sort((a, b) => b[1] - a[1]).slice(0, n)`. */
  function TopByCount(entries: seq<Entry>, n: nat): seq<Entry>
  {
    Take(SortBy(entries, CountGe), n)
  }

  /** The first `n` by count are in non-increasing count order and are taken from `entries`. */
  lemma TopByCountSorted(entries: seq<Entry>, n: nat)
    ensures |TopByCount(entries, n)| <= n
    ensures SortedBy(TopByCount(entries, n), CountGe)
    ensures forall e :: e in TopByCount(entries, n) ==> e in entries
  {
    var s := SortBy(entries, CountGe);
    CountGeIsPreorder();
    SortBySorted(entries, CountGe);
    forall e | e in TopByCount(entries, n) ensures e in entries {
      assert e in multiset(s);
    }
  }

  lemma TopByCountDistinct(entries: seq<Entry>, n: nat)
    requires DistinctBy(entries, Key)
    ensures DistinctBy(TopByCount(entries, n), Key)
  {
    DistinctByPermutation(entries, SortBy(entries, CountGe), Key);
  }

  /** An entry that is left out has a count no larger than any kept one, and
      only happens when `n` entries were kept. */
  lemma TopByCountOmitted(entries: seq<Entry>, n: nat, x: Entry)
    requires x in entries && x !in TopByCount(entries, n)
    ensures |TopByCount(entries, n)| == n
    ensures forall e :: e in TopByCount(entries, n) ==> e.count >= x.count
  {
    var s := SortBy(entries, CountGe);
    var r := TopByCount(entries, n);
    CountGeIsPreorder();
    SortBySorted(entries, CountGe);
    assert x in multiset(s);
    var p :| 0 <= p < |s| && s[p] == x;
    assert p >= |r|;
    forall e | e in r ensures e.count >= x.count {
      var i :| 0 <= i < |r| && r[i] == e;
      assert s[i] == e;
    }
  }

  lemma TopByCountAll(entries: seq<Entry>, n: nat)
    requires |entries| <= n
    ensures multiset(TopByCount(entries, n)) == multiset(entries)
  {
  }

  /** What the top `n` of a tally holds: at most `n` entries, each a key of
      `ks` with its exact count. */
  lemma TopOfTally(ks: seq<string>, n: nat)
    ensures |TopByCount(Tally(ks), n)| <= n
    ensures forall e :: e in TopByCount(Tally(ks), n) ==> e.key in ks && e.count == multiset(ks)[e.key]
  {
    TallyExact(ks);
    TopByCountSorted(Tally(ks), n);
  }

  /** The top `n` of a tally: at most `n` entries, distinct keys, counts
      non-increasing, each count exact; every key left out has a count no
      larger than any kept one; and nothing is left out when there are at
      most `n` keys. */
  lemma TopByCountOfTally(ks: seq<string>, n: nat)
    ensures |TopByCount(Tally(ks), n)| <= n
    ensures DistinctBy(TopByCount(Tally(ks), n), Key)
    ensures SortedBy(TopByCount(Tally(ks), n), CountGe)
    ensures forall e :: e in TopByCount(Tally(ks), n) ==> e.key in ks && e.count == multiset(ks)[e.key]
    ensures forall k :: k in ks && Entry(k, multiset(ks)[k]) !in TopByCount(Tally(ks), n) ==>
              |TopByCount(Tally(ks), n)| == n &&
              forall e :: e in TopByCount(Tally(ks), n) ==> e.count >= multiset(ks)[k]
    ensures |Distinct(ks)| <= n ==> multiset(TopByCount(Tally(ks), n)) == multiset(Tally(ks))
  {
    var t := Tally(ks);
    TallyExact(ks);
    TopByCountSorted(t, n);
    TopByCountDistinct(t, n);
    forall k | k in ks && Entry(k, multiset(ks)[k]) !in TopByCount(t, n)
      ensures |TopByCount(t, n)| == n && forall e :: e in TopByCount(t, n) ==> e.count >= multiset(ks)[k]
    {
      TopByCountOmitted(t, n, Entry(k, multiset(ks)[k]));
    }
    if |Distinct(ks)| <= n {
      TopByCountAll(t, n);
    }
  }

  /** Sorting a tally by key lists its keys in strictly ascending order. */
  lemma SortByKeyOfTally(ks: seq<string>)
    ensures multiset(SortBy(Tally(ks), KeyLe)) == multiset(Tally(ks))
    ensures forall i, j :: 0 <= i < j < |SortBy(Tally(ks), KeyLe)| ==>
              StrLe(SortBy(Tally(ks), KeyLe)[i].key, SortBy(Tally(ks), KeyLe)[j].key) &&
              SortBy(Tally(ks), KeyLe)[i].key != SortBy(Tally(ks), KeyLe)[j].key
  {
    var t := Tally(ks);
    var s := SortBy(t, KeyLe);
    TallyExact(ks);
    KeyLeIsPreorder();
    SortBySorted(t, KeyLe);
    DistinctByPermutation(t, s, Key);
  }

  /** Sorting a tally by key loses no key: each key of `ks` is listed with its count. */
  lemma SortedTallyHasKey(ks: seq<string>, k: string)
    requires k in ks
    ensures exists i :: 0 <= i < |SortBy(Tally(ks), KeyLe)| && SortBy(Tally(ks), KeyLe)[i] == Entry(k, multiset(ks)[k])
  {
    TallyExact(ks);
    var s := SortBy(Tally(ks), KeyLe);
    assert Entry(k, multiset(ks)[k]) in multiset(s);
  }
}
