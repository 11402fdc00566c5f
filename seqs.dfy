/** The array operations the pages chain together: `filter`, `sort` with a
    comparator (stable, as `Array.prototype.sort` is), `slice(0, n)`, the
    concatenation of pages, and uniqueness of a key across a list. */
module Seqs {

  // ---------------------------------------------------------------- filter

  /** `s.filter(p)`: the elements satisfying `p`, in their original order. */
  function Filter<T>(s: seq<T>, p: T -> bool): (r: seq<T>)
    ensures |r| <= |s|
    ensures forall i :: 0 <= i < |r| ==> p(r[i])
  {
    if s == [] then [] else Filter(s[..|s| - 1], p) + (if p(s[|s| - 1]) then [s[|s| - 1]] else [])
  }

  /** Each element is kept as often as it occurs when it passes, and not at all otherwise. */
  lemma {:induction false} FilterCount<T>(s: seq<T>, p: T -> bool, x: T)
    ensures multiset(Filter(s, p))[x] == if p(x) then multiset(s)[x] else 0
  {
    if s != [] {
      FilterCount(s[..|s| - 1], p, x);
      assert s == s[..|s| - 1] + [s[|s| - 1]];
    }
  }

  /** An element is kept exactly when it occurs and passes. */
  lemma FilterIn<T>(s: seq<T>, p: T -> bool, x: T)
    ensures x in Filter(s, p) <==> x in s && p(x)
  {
    FilterCount(s, p, x);
    assert x in Filter(s, p) <==> x in multiset(Filter(s, p));
    assert x in s <==> x in multiset(s);
  }

  /** Everything kept occurs in `s`, and every passing element of `s` is kept. */
  lemma FilterMembers<T>(s: seq<T>, p: T -> bool)
    ensures forall i :: 0 <= i < |Filter(s, p)| ==> Filter(s, p)[i] in s
    ensures forall i :: 0 <= i < |s| && p(s[i]) ==> s[i] in Filter(s, p)
  {
    forall i | 0 <= i < |Filter(s, p)| ensures Filter(s, p)[i] in s {
      FilterIn(s, p, Filter(s, p)[i]);
    }
    forall i | 0 <= i < |s| && p(s[i]) ensures s[i] in Filter(s, p) {
      FilterIn(s, p, s[i]);
    }
  }

  lemma {:induction false} FilterAppend<T>(a: seq<T>, b: seq<T>, p: T -> bool)
    ensures Filter(a + b, p) == Filter(a, p) + Filter(b, p)
  {
    if b != [] {
      var b' := b[..|b| - 1];
      assert (a + b)[..|a + b| - 1] == a + b';
      FilterAppend(a, b', p);
    } else {
      assert a + b == a;
    }
  }

  /** Filtering two permutations of each other gives permutations of each other. */
  lemma FilterPermutation<T(!new)>(a: seq<T>, b: seq<T>, p: T -> bool)
    requires multiset(a) == multiset(b)
    ensures multiset(Filter(a, p)) == multiset(Filter(b, p))
  {
    forall x ensures multiset(Filter(a, p))[x] == multiset(Filter(b, p))[x] {
      FilterCount(a, p, x);
      FilterCount(b, p, x);
    }
    assert multiset(Filter(a, p)) == multiset(Filter(b, p));
  }

  /** A filter keeps everything when everything passes. */
  lemma {:induction false} FilterAll<T>(s: seq<T>, p: T -> bool)
    requires forall i :: 0 <= i < |s| ==> p(s[i])
    ensures Filter(s, p) == s
  {
    if s != [] {
      FilterAll(s[..|s| - 1], p);
    }
  }

  /** Nothing passes, so nothing is kept. */
  lemma FilterNone<T>(s: seq<T>, p: T -> bool)
    requires forall i :: 0 <= i < |s| ==> !p(s[i])
    ensures Filter(s, p) == []
  {
    if Filter(s, p) != [] {
      FilterIn(s, p, Filter(s, p)[0]);
    }
  }

  /** The first element kept is the first element that passes. */
  lemma FilterFirst<T>(s: seq<T>, p: T -> bool, k: int)
    requires 0 <= k < |s| && p(s[k])
    requires forall i :: 0 <= i < k ==> !p(s[i])
    ensures Filter(s, p) != [] && Filter(s, p)[0] == s[k]
  {
    var a := s[..k];
    var c := s[k..];
    assert s == a + c;
    FilterAppend(a, c, p);
    FilterNone(a, p);
    var b := c[1..];
    assert c == [c[0]] + b;
    FilterAppend([c[0]], b, p);
    assert Filter([c[0]], p) == [c[0]] by {
      assert [c[0]][..0] == [];
    }
  }

  // ---------------------------------------------------------------- map

  /** `s.map(f)`. */
  function Map<T, R>(s: seq<T>, f: T -> R): (r: seq<R>)
    ensures |r| == |s|
    ensures forall i :: 0 <= i < |s| ==> r[i] == f(s[i])
  {
    seq(|s|, i requires 0 <= i < |s| => f(s[i]))
  }

  /** Mapping one more element appends its image. */
  lemma MapSnoc<T, R>(s: seq<T>, f: T -> R, i: int)
    requires 0 <= i < |s|
    ensures Map(s[..i + 1], f) == Map(s[..i], f) + [f(s[i])]
  {
  }

  /** Mapping and filtering one more element appends its image when it passes. */
  lemma FilterMapSnoc<T, R>(s: seq<T>, f: T -> R, p: R -> bool, i: int)
    requires 0 <= i < |s|
    ensures Filter(Map(s[..i + 1], f), p) == Filter(Map(s[..i], f), p) + (if p(f(s[i])) then [f(s[i])] else [])
  {
    var m := Map(s[..i + 1], f);
    MapSnoc(s, f, i);
    assert m[..|m| - 1] == Map(s[..i], f);
  }

  /** An element of `Filter(Map(s, f), q)` is an image that passes `q`, and
      every image that passes is one. */
  lemma FilterMapIn<T, R>(s: seq<T>, f: T -> R, q: R -> bool, x: R)
    ensures x in Filter(Map(s, f), q) <==> q(x) && exists y :: y in s && f(y) == x
  {
    var m := Map(s, f);
    FilterIn(m, q, x);
    if x in m {
      var k :| 0 <= k < |m| && m[k] == x;
      assert s[k] in s;
    }
    if exists y :: y in s && f(y) == x {
      var y :| y in s && f(y) == x;
      var k :| 0 <= k < |s| && s[k] == y;
      assert m[k] == x;
    }
  }

  // ---------------------------------------------------------------- preferring

  /** The elements that pass `p`, or all of `s` when none does. */
  function Prefer<T>(s: seq<T>, p: T -> bool): seq<T>
  {
    var w := Filter(s, p);
    if |w| > 0 then w else s
  }

  /** `Prefer` keeps elements of `s`, and something of a non-empty `s`. */
  lemma PreferIn<T>(s: seq<T>, p: T -> bool)
    ensures forall j :: 0 <= j < |Prefer(s, p)| ==> Prefer(s, p)[j] in s
    ensures |s| > 0 ==> |Prefer(s, p)| > 0
  {
    FilterMembers(s, p);
  }

  /** `Prefer` keeps only the passing elements when one passes, all of them
      otherwise. */
  lemma PreferSpec<T>(s: seq<T>, p: T -> bool)
    ensures forall j :: 0 <= j < |Prefer(s, p)| ==> Prefer(s, p)[j] in s
    ensures (exists i :: 0 <= i < |s| && p(s[i])) ==> Prefer(s, p) == Filter(s, p)
    ensures (exists i :: 0 <= i < |s| && p(s[i])) ==> forall j :: 0 <= j < |Prefer(s, p)| ==> p(Prefer(s, p)[j])
    ensures (forall i :: 0 <= i < |s| ==> !p(s[i])) ==> Prefer(s, p) == s
  {
    FilterMembers(s, p);
    if exists i :: 0 <= i < |s| && p(s[i]) {
      var i :| 0 <= i < |s| && p(s[i]);
      FilterIn(s, p, s[i]);
    } else {
      FilterNone(s, p);
    }
  }

  /** Preferring again among preferred elements changes nothing. */
  lemma PreferOfPart<T>(s: seq<T>, p: T -> bool, t: seq<T>)
    requires forall j :: 0 <= j < |t| ==> t[j] in Prefer(s, p)
    ensures Prefer(t, p) == t
  {
    PreferSpec(s, p);
    if exists i :: 0 <= i < |s| && p(s[i]) {
      forall j | 0 <= j < |t| ensures p(t[j]) {
        var k :| 0 <= k < |Prefer(s, p)| && Prefer(s, p)[k] == t[j];
      }
      FilterAll(t, p);
    } else {
      forall j | 0 <= j < |t| ensures !p(t[j]) {
        assert t[j] in s;
        var k :| 0 <= k < |s| && s[k] == t[j];
      }
      FilterNone(t, p);
    }
  }

  // ---------------------------------------------------------------- order

  predicate SortedBy<T>(s: seq<T>, le: (T, T) -> bool)
  {
    forall i, j :: 0 <= i < j < |s| ==> le(s[i], s[j])
  }

  /** `le` is total and transitive: what a consistent `sort` comparator gives. */
  ghost predicate TotalPreorder<T(!new)>(le: (T, T) -> bool)
  {
    && (forall a, b :: le(a, b) || le(b, a))
    && (forall a, b, c :: le(a, b) && le(b, c) ==> le(a, c))
  }

  /** Insert `x` before the first element it does not come after. */
  function Insert<T>(x: T, s: seq<T>, le: (T, T) -> bool): (r: seq<T>)
    ensures multiset(r) == multiset(s) + multiset{x}
  {
    if s == [] then [x]
    else if le(x, s[0]) then [x] + s
    else
      assert s == [s[0]] + s[1..];
      [s[0]] + Insert(x, s[1..], le)
  }

  /** `s.sort(cmp)` with `le(a, b)` meaning `cmp(a, b) <= 0`: a stable
      insertion sort, so elements the comparator ties keep their order. The
      result is a permutation of `s`. */
  function SortBy<T>(s: seq<T>, le: (T, T) -> bool): (r: seq<T>)
    ensures multiset(r) == multiset(s)
    ensures |r| == |s|
  {
    if s == [] then []
    else
      assert s == [s[0]] + s[1..];
      Insert(s[0], SortBy(s[1..], le), le)
  }

  lemma {:induction false} InsertSorted<T(!new)>(x: T, s: seq<T>, le: (T, T) -> bool)
    requires TotalPreorder(le)
    requires SortedBy(s, le)
    ensures SortedBy(Insert(x, s, le), le)
  {
    if s != [] && !le(x, s[0]) {
      InsertSorted(x, s[1..], le);
      var r := Insert(x, s, le);
      forall j | 0 < j < |r| ensures le(r[0], r[j]) {
        var y := r[j];
        assert y in multiset(Insert(x, s[1..], le));
        if y != x {
          assert y in s[1..];
        }
      }
    }
  }

  /** With a consistent comparator the result is in comparator order. */
  lemma {:induction false} SortBySorted<T(!new)>(s: seq<T>, le: (T, T) -> bool)
    requires TotalPreorder(le)
    ensures SortedBy(SortBy(s, le), le)
  {
    if s != [] {
      SortBySorted(s[1..], le);
      InsertSorted(s[0], SortBy(s[1..], le), le);
    }
  }

  /** A filter of a sorted list is sorted. */
  lemma {:induction false} FilterSorted<T>(s: seq<T>, p: T -> bool, le: (T, T) -> bool)
    requires SortedBy(s, le)
    ensures SortedBy(Filter(s, p), le)
  {
    if s != [] {
      var s' := s[..|s| - 1];
      FilterSorted(s', p, le);
      var f := Filter(s', p);
      forall i | 0 <= i < |f| ensures le(f[i], s[|s| - 1]) {
        FilterIn(s', p, f[i]);
        var k :| 0 <= k < |s'| && s'[k] == f[i];
      }
    }
  }

  // ---------------------------------------------------------------- slice

  /** `s.slice(0, n)`. */
  function Take<T>(s: seq<T>, n: nat): (r: seq<T>)
    ensures |r| <= n && |r| <= |s|
    ensures |r| == n || r == s
    ensures r == s[..|r|]
  {
    if |s| <= n then s else s[..n]
  }

  // ---------------------------------------------------------------- blocks

  /** The pages of a paged listing concatenated in order (`all.push(...items)`). */
  function Flatten<T>(pages: seq<seq<T>>): (r: seq<T>)
  {
    if pages == [] then [] else pages[0] + Flatten(pages[1..])
  }

  /** `for (const p of ps) out.push(...f(p))`: the block `f(p)` of every `p`,
      concatenated in order. */
  function Blocks<T, R>(ps: seq<T>, f: T -> seq<R>): seq<R>
  {
    if ps == [] then [] else Blocks(ps[..|ps| - 1], f) + f(ps[|ps| - 1])
  }

  /** The blocks of one more element end with that element's block. */
  lemma BlocksSnoc<T, R>(ps: seq<T>, f: T -> seq<R>, j: int)
    requires 0 <= j < |ps|
    ensures Blocks(ps[..j + 1], f) == Blocks(ps[..j], f) + f(ps[j])
  {
    assert ps[..j + 1][..j] == ps[..j];
  }

  lemma {:induction false} BlocksAppend<T, R>(a: seq<T>, b: seq<T>, f: T -> seq<R>)
    ensures Blocks(a + b, f) == Blocks(a, f) + Blocks(b, f)
  {
    if b == [] {
      assert a + b == a;
    } else {
      var b', x := b[..|b| - 1], b[|b| - 1];
      BlocksAppend(a, b', f);
      assert (a + b)[..|a + b| - 1] == a + b' && (a + b)[|a + b| - 1] == x;
      calc {
        Blocks(a + b, f);
        Blocks(a + b', f) + f(x);
        (Blocks(a, f) + Blocks(b', f)) + f(x);
        Blocks(a, f) + (Blocks(b', f) + f(x));
      }
    }
  }

  /** The block of the i-th element sits right after the blocks before it. */
  lemma BlockAt<T, R>(ps: seq<T>, f: T -> seq<R>, i: int)
    requires 0 <= i < |ps|
    ensures |Blocks(ps[..i], f)| + |f(ps[i])| <= |Blocks(ps, f)|
    ensures Blocks(ps, f)[|Blocks(ps[..i], f)|..|Blocks(ps[..i], f)| + |f(ps[i])|] == f(ps[i])
  {
    BlocksAppend(ps[..i], [ps[i]], f);
    BlocksAppend(ps[..i + 1], ps[i + 1..], f);
    assert ps[..i] + [ps[i]] == ps[..i + 1];
    assert ps[..i + 1] + ps[i + 1..] == ps;
    assert Blocks([ps[i]], f) == f(ps[i]);
  }

  /** `part` sits in `whole` at position `start`. */
  ghost predicate OccursAt<T>(whole: seq<T>, part: seq<T>, start: int)
  {
    0 <= start && start + |part| <= |whole| && whole[start..start + |part|] == part
  }

  /** The same, with more elements after the blocks. */
  lemma BlockAtFollowed<T, R>(ps: seq<T>, f: T -> seq<R>, i: int, tail: seq<R>)
    requires 0 <= i < |ps|
    ensures OccursAt(Blocks(ps, f) + tail, f(ps[i]), |Blocks(ps[..i], f)|)
  {
    var a := Blocks(ps, f);
    var k := |Blocks(ps[..i], f)|;
    BlockAt(ps, f, i);
    assert (a + tail)[k..k + |f(ps[i])|] == a[k..k + |f(ps[i])|];
  }

  /** A property every block's elements have, all the blocks' elements have. */
  lemma {:induction false} BlocksAll<T, R>(ps: seq<T>, f: T -> seq<R>, q: R -> bool)
    requires forall i, j :: 0 <= i < |ps| && 0 <= j < |f(ps[i])| ==> q(f(ps[i])[j])
    ensures forall j :: 0 <= j < |Blocks(ps, f)| ==> q(Blocks(ps, f)[j])
  {
    if ps != [] {
      BlocksAll(ps[..|ps| - 1], f, q);
      var last := ps[|ps| - 1];
      assert forall j :: 0 <= j < |f(last)| ==> q(f(last)[j]);
    }
  }

  /** A property every element of two lists has, every element of their
      concatenation has. */
  lemma AllOfAppend<T>(a: seq<T>, b: seq<T>, q: T -> bool)
    requires forall j :: 0 <= j < |a| ==> q(a[j])
    requires forall j :: 0 <= j < |b| ==> q(b[j])
    ensures forall j :: 0 <= j < |a + b| ==> q((a + b)[j])
  {
  }

  /** When every element of `a` has `q` and none of `b` has it, the elements
      of `a + b` with `q` are exactly those before `b`. */
  lemma SplitOfAppend<T>(a: seq<T>, b: seq<T>, q: T -> bool)
    requires forall j :: 0 <= j < |a| ==> q(a[j])
    requires forall j :: 0 <= j < |b| ==> !q(b[j])
    ensures (a + b)[|a|..] == b
    ensures forall j :: 0 <= j < |a + b| ==> (q((a + b)[j]) <==> j < |a|)
  {
  }

  /** Filtering the blocks filters each block. */
  lemma {:induction false} BlocksFilter<T, R>(ps: seq<T>, f: T -> seq<R>, q: R -> bool, g: T -> seq<R>)
    requires forall i :: 0 <= i < |ps| ==> Filter(f(ps[i]), q) == g(ps[i])
    ensures Filter(Blocks(ps, f), q) == Blocks(ps, g)
  {
    if ps != [] {
      BlocksFilter(ps[..|ps| - 1], f, q, g);
      FilterAppend(Blocks(ps[..|ps| - 1], f), f(ps[|ps| - 1]), q);
    }
  }

  /** `c(p)` summed over `ps`. */
  function SumBy<T>(ps: seq<T>, c: T -> nat): nat
  {
    if ps == [] then 0 else SumBy(ps[..|ps| - 1], c) + c(ps[|ps| - 1])
  }

  /** An element occurs in the blocks as often as in all blocks together. */
  lemma {:induction false} BlocksCount<T, R>(ps: seq<T>, f: T -> seq<R>, x: R, c: T -> nat)
    requires forall i :: 0 <= i < |ps| ==> multiset(f(ps[i]))[x] == c(ps[i])
    ensures multiset(Blocks(ps, f))[x] == SumBy(ps, c)
  {
    if ps != [] {
      BlocksCount(ps[..|ps| - 1], f, x, c);
    }
  }

  // ---------------------------------------------------------------- keys

  /** No two positions of `s` share a key. */
  ghost predicate DistinctBy<T, K>(s: seq<T>, key: T -> K)
  {
    forall i, j :: 0 <= i < j < |s| ==> key(s[i]) != key(s[j])
  }

  lemma {:induction false} DistinctByOnce<T, K>(s: seq<T>, key: T -> K, x: T)
    requires DistinctBy(s, key)
    ensures multiset(s)[x] <= 1
  {
    if s != [] {
      var s' := s[..|s| - 1];
      DistinctByOnce(s', key, x);
      assert s == s' + [s[|s| - 1]];
      assert s[|s| - 1] !in s';
    }
  }

  lemma DistinctBySameKey<T, K>(s: seq<T>, key: T -> K, a: T, b: T)
    requires DistinctBy(s, key)
    requires a in s && b in s && key(a) == key(b)
    ensures a == b
  {
    var i :| 0 <= i < |s| && s[i] == a;
    var j :| 0 <= j < |s| && s[j] == b;
    assert i == j;
  }

  lemma TwoPositions<T>(s: seq<T>, i: int, j: int)
    requires 0 <= i < j < |s| && s[i] == s[j]
    ensures multiset(s)[s[i]] >= 2
  {
    assert s == s[..i] + [s[i]] + s[i + 1..j] + [s[j]] + s[j + 1..];
  }

  lemma {:induction false} CountAllSame<T>(s: seq<T>, x: T)
    requires forall c :: c in s ==> c == x
    ensures multiset(s)[x] == |s|
  {
    if s != [] {
      assert s == [s[0]] + s[1..];
      assert s[0] in s && forall c :: c in s[1..] ==> c in s;
      CountAllSame(s[1..], x);
    }
  }

  /** A key-distinct sequence whose elements are all one value holds it at most once. */
  lemma DistinctByAtMostOne<T, K>(s: seq<T>, key: T -> K, x: T)
    requires DistinctBy(s, key)
    requires forall c :: c in s ==> c == x
    ensures |s| <= 1
  {
    CountAllSame(s, x);
    DistinctByOnce(s, key, x);
  }

  /** Uniqueness of keys survives any permutation. */

  lemma DistinctByPermutation<T, K>(a: seq<T>, b: seq<T>, key: T -> K)
    requires multiset(a) == multiset(b)
    requires DistinctBy(a, key)
    ensures DistinctBy(b, key)
  {
    forall i, j | 0 <= i < j < |b| ensures key(b[i]) != key(b[j]) {
      if key(b[i]) == key(b[j]) {
        assert b[i] in multiset(a) && b[j] in multiset(a);
        DistinctBySameKey(a, key, b[i], b[j]);
        TwoPositions(b, i, j);
        DistinctByOnce(a, key, b[i]);
        assert false;
      }
    }
  }

  /** Uniqueness of keys survives a filter. */
  lemma {:induction false} DistinctByFilter<T, K>(s: seq<T>, p: T -> bool, key: T -> K)
    requires DistinctBy(s, key)
    ensures DistinctBy(Filter(s, p), key)
  {
    if s != [] {
      var s' := s[..|s| - 1];
      DistinctByFilter(s', p, key);
      var f := Filter(s', p);
      forall i | 0 <= i < |f| ensures key(f[i]) != key(s[|s| - 1]) {
        FilterIn(s', p, f[i]);
        var k :| 0 <= k < |s'| && s'[k] == f[i];
      }
    }
  }
}
