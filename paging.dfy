/** The bounded paging loop both the map page and the dashboard use to read
    every job: request `limit = 200` items at offsets 0, 200, 400, …, append
    each page, stop after the first page shorter than the limit, and never
    make more than a fixed number of requests. */
module Paging {
  import opened Js
  import opened Seqs

  const PageSize: nat := 200

  /** What one `api.get('/admin/jobs', { params: { limit, offset } })` gives:
      a thrown error, or a response whose `data?.items` may be missing. */
  datatype Reply<T> = Thrown | Data(items: Option<seq<T>>)

  /** The whole read: failed (an error propagates out of the loop) or the items. */
  datatype Outcome<T> = Failed | Fetched(items: seq<T>)

  /** `data?.items || []`. */
  function PageItems<T>(reply: Reply<T>): seq<T>
  {
    if reply.Data? && reply.items.Some? then reply.items.value else []
  }

  /** `items.length < limit`: the page that ends the read. */
  predicate IsLast<T>(reply: Reply<T>)
  {
    reply.Thrown? || |PageItems(reply)| < PageSize
  }

  /** The offsets requested when at most `pages` requests remain and the next
      one is at `offset`. The server is the oracle `fetch`, from offset to reply. */
  function Requests<T>(fetch: nat -> Reply<T>, pages: nat, offset: nat): seq<nat>
    decreases pages
  {
    if pages == 0 then []
    else if IsLast(fetch(offset)) then [offset]
    else [offset] + Requests(fetch, pages - 1, offset + PageSize)
  }

  /** The result of the read that starts at `offset` with `pages` requests left. */
  function Crawl<T>(fetch: nat -> Reply<T>, pages: nat, offset: nat): Outcome<T>
    decreases pages
  {
    if pages == 0 then Fetched([])
    else
      var reply := fetch(offset);
      if reply.Thrown? then Failed
      else if IsLast(reply) then Fetched(PageItems(reply))
      else Prepend(PageItems(reply), Crawl(fetch, pages - 1, offset + PageSize))
  }

  function Prepend<T>(xs: seq<T>, o: Outcome<T>): Outcome<T>
  {
    if o.Failed? then Failed else Fetched(xs + o.items)
  }

  lemma PrependPrepend<T>(a: seq<T>, b: seq<T>, o: Outcome<T>)
    ensures Prepend(a, Prepend(b, o)) == Prepend(a + b, o)
  {
    if o.Fetched? {
      assert a + (b + o.items) == (a + b) + o.items;
    }
  }

  /** The pages returned at the requested offsets. */
  function PagesAt<T>(fetch: nat -> Reply<T>, q: seq<nat>): seq<seq<T>>
  {
    if q == [] then [] else [PageItems(fetch(q[0]))] + PagesAt(fetch, q[1..])
  }

  /** The requests made: at most `pages`, the k-th at `offset + 200 k`;
      every request but the last got a full page, and the read stopped
      early only on a short page or an error. */
  lemma {:induction false} RequestsShape<T>(fetch: nat -> Reply<T>, pages: nat, offset: nat)
    ensures |Requests(fetch, pages, offset)| <= pages
    ensures forall k :: 0 <= k < |Requests(fetch, pages, offset)| ==>
              Requests(fetch, pages, offset)[k] == offset + k * PageSize
    ensures forall k :: 0 <= k < |Requests(fetch, pages, offset)| - 1 ==>
              !IsLast(fetch(Requests(fetch, pages, offset)[k]))
    ensures |Requests(fetch, pages, offset)| < pages ==>
              |Requests(fetch, pages, offset)| > 0 &&
              IsLast(fetch(Requests(fetch, pages, offset)[|Requests(fetch, pages, offset)| - 1]))
    decreases pages
  {
    if pages > 0 && !IsLast(fetch(offset)) {
      var q' := Requests(fetch, pages - 1, offset + PageSize);
      var q := Requests(fetch, pages, offset);
      RequestsShape(fetch, pages - 1, offset + PageSize);
      assert q[1..] == q';
      forall k | 0 < k < |q| ensures q[k] == offset + k * PageSize {
        assert q[k] == q'[k - 1];
      }
    }
  }

  /** The read failed exactly when its last request threw; otherwise its
      items are the requested pages concatenated in order. */
  lemma {:induction false} CrawlOutcome<T>(fetch: nat -> Reply<T>, pages: nat, offset: nat)
    ensures Crawl(fetch, pages, offset).Failed? <==>
              |Requests(fetch, pages, offset)| > 0 &&
              fetch(Requests(fetch, pages, offset)[|Requests(fetch, pages, offset)| - 1]).Thrown?
    ensures Crawl(fetch, pages, offset).Fetched? ==>
              Crawl(fetch, pages, offset).items == Flatten(PagesAt(fetch, Requests(fetch, pages, offset)))
    decreases pages
  {
    if pages > 0 && !IsLast(fetch(offset)) {
      var q := Requests(fetch, pages, offset);
      CrawlOutcome(fetch, pages - 1, offset + PageSize);
      assert q[1..] == Requests(fetch, pages - 1, offset + PageSize);
    } else if pages > 0 {
      var q := Requests(fetch, pages, offset);
      assert q[1..] == [];
      assert PagesAt(fetch, q) == [PageItems(fetch(offset))];
      assert PageItems(fetch(offset)) + [] == PageItems(fetch(offset));
    }
  }

  /** The shape of the whole read, from the first offset. */
  lemma CrawlShape<T>(fetch: nat -> Reply<T>, pages: nat)
    ensures |Requests(fetch, pages, 0)| <= pages
    ensures forall k :: 0 <= k < |Requests(fetch, pages, 0)| ==> Requests(fetch, pages, 0)[k] == k * PageSize
    ensures forall k :: 0 <= k < |Requests(fetch, pages, 0)| - 1 ==> !IsLast(fetch(Requests(fetch, pages, 0)[k]))
    ensures |Requests(fetch, pages, 0)| < pages ==>
              |Requests(fetch, pages, 0)| > 0 && IsLast(fetch(Requests(fetch, pages, 0)[|Requests(fetch, pages, 0)| - 1]))
    ensures Crawl(fetch, pages, 0).Failed? <==>
              |Requests(fetch, pages, 0)| > 0 && fetch(Requests(fetch, pages, 0)[|Requests(fetch, pages, 0)| - 1]).Thrown?
    ensures Crawl(fetch, pages, 0).Fetched? ==> Crawl(fetch, pages, 0).items == Flatten(PagesAt(fetch, Requests(fetch, pages, 0)))
  {
    RequestsShape(fetch, pages, 0);
    CrawlOutcome(fetch, pages, 0);
  }

  /** A request that got a full page: its items join the read and the
      next request is 200 further on. */
  lemma FetchStep<T>(fetch: nat -> Reply<T>, n: nat, offset: nat, all: seq<T>, requested: seq<nat>,
                     crawl: Outcome<T>, requests: seq<nat>)
    requires n > 0 && !IsLast(fetch(offset))
    requires crawl == Prepend(all, Crawl(fetch, n, offset))
    requires requests == requested + Requests(fetch, n, offset)
    ensures crawl == Prepend(all + PageItems(fetch(offset)), Crawl(fetch, n - 1, offset + PageSize))
    ensures requests == (requested + [offset]) + Requests(fetch, n - 1, offset + PageSize)
  {
    PrependPrepend(all, PageItems(fetch(offset)), Crawl(fetch, n - 1, offset + PageSize));
  }

  /** The request that ends the read: an error fails it, a short page completes it. */
  lemma FetchLast<T>(fetch: nat -> Reply<T>, n: nat, offset: nat, all: seq<T>, requested: seq<nat>,
                     crawl: Outcome<T>, requests: seq<nat>)
    requires n > 0 && IsLast(fetch(offset))
    requires crawl == Prepend(all, Crawl(fetch, n, offset))
    requires requests == requested + Requests(fetch, n, offset)
    ensures requests == requested + [offset]
    ensures crawl == if fetch(offset).Thrown? then Failed else Fetched(all + PageItems(fetch(offset)))
  {
  }

  /** `for (let i = 0; i < pages; i++) { …; all.push(...items); if
      (items.length < limit) break; offset += limit }`, with every request
      recorded in `requested`. */
  method FetchAll<T>(fetch: nat -> Reply<T>, pages: nat) returns (r: Outcome<T>, ghost requested: seq<nat>)
    ensures r == Crawl(fetch, pages, 0)
    ensures requested == Requests(fetch, pages, 0)
  {
    var all: seq<T> := [];
    var offset: nat := 0;
    var i := 0;
    requested := [];
    while i < pages
      invariant 0 <= i <= pages && offset == i * PageSize
      invariant Crawl(fetch, pages, 0) == Prepend(all, Crawl(fetch, pages - i, offset))
      invariant Requests(fetch, pages, 0) == requested + Requests(fetch, pages - i, offset)
    {
      var reply := fetch(offset);
      if IsLast(reply) {
        FetchLast(fetch, pages - i, offset, all, requested, Crawl(fetch, pages, 0), Requests(fetch, pages, 0));
        requested := requested + [offset];
        if reply.Thrown? {
          return Failed, requested;
        }
        return Fetched(all + PageItems(reply)), requested;
      }
      FetchStep(fetch, pages - i, offset, all, requested, Crawl(fetch, pages, 0), Requests(fetch, pages, 0));
      requested := requested + [offset];
      all := all + PageItems(reply);
      offset := offset + PageSize;
      i := i + 1;
    }
    assert all == all + [];
    r := Fetched(all);
  }
}
