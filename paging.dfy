/** Replies of the two REST APIs as the migration scripts see them. A paginated endpoint
    is modelled as the finite list of replies it gives to the requests for pages 1, 2, ...;
    a request past the end of that list is answered like a failed connection. */
module Paging {
  import opened Wrappers

  /** One HTTP reply (status, parsed JSON body, the parsed `X-WP-TotalPages` header when
      present), or a request that raised before any reply arrived. */
  datatype Reply<T> = Reply(status: int, body: T, totalPages: Option<int>) | ConnectionFailed

  type PageSource<T> = seq<Reply<seq<T>>>

  /** The items a pagination loop gathered and the number of requests it issued. */
  datatype Fetched<T> = Fetched(items: seq<T>, requests: nat)

  /** The reply to the request for page `page` (pages are numbered from 1). */
  function Request<T>(src: PageSource<T>, page: int): (r: Reply<seq<T>>)
    ensures page < 1 || page > |src| ==> r == ConnectionFailed
  {
    if 1 <= page <= |src| then src[page - 1] else ConnectionFailed
  }

  /** The statuses for which `requests`' `raise_for_status` raises. */
  predicate RaisesForStatus(status: int)
  {
    400 <= status < 600
  }

  /** A reply with status 200, as the category and content scripts test it. */
  predicate IsOk<T>(r: Reply<T>)
  {
    r.Reply? && r.status == 200
  }

  function Flatten<T>(pages: seq<seq<T>>): seq<T>
  {
    if pages == [] then [] else pages[0] + Flatten(pages[1..])
  }

  lemma {:induction false} FlattenAppend<T>(a: seq<seq<T>>, b: seq<seq<T>>)
    ensures Flatten(a + b) == Flatten(a) + Flatten(b)
  {
    if a != [] {
      assert (a + b)[0] == a[0];
      assert (a + b)[1..] == a[1..] + b;
      FlattenAppend(a[1..], b);
      calc {
        Flatten(a + b);
        a[0] + Flatten(a[1..] + b);
        a[0] + (Flatten(a[1..]) + Flatten(b));
        (a[0] + Flatten(a[1..])) + Flatten(b);
      }
    } else {
      assert a + b == b;
    }
  }

  /** The bodies of a list of replies (a failed request has none). */
  function Bodies<T>(replies: seq<Reply<seq<T>>>): (r: seq<seq<T>>)
    ensures |r| == |replies|
    ensures forall i :: 0 <= i < |replies| && replies[i].Reply? ==> r[i] == replies[i].body
  {
    if replies == [] then []
    else [if replies[0].Reply? then replies[0].body else []] + Bodies(replies[1..])
  }

  lemma FlattenBodiesFront<T>(src: seq<Reply<seq<T>>>, p: nat, k: nat)
    requires 1 <= p <= k <= |src| && src[p - 1].Reply?
    ensures Flatten(Bodies(src[p - 1..k])) == src[p - 1].body + Flatten(Bodies(src[p..k]))
  {
    var part := src[p - 1..k];
    assert part[0] == src[p - 1];
    assert part[1..] == src[p..k];
  }

  /** The items of a page in front of what the rest of a pagination loop gathers, or the
      exception the rest raised. */
  function Prepend<T>(items: seq<T>, r: Result<seq<T>>): Result<seq<T>>
  {
    match r
    case Failure(e) => Failure(e)
    case Success(rest) => Success(items + rest)
  }

  lemma PrependTwice<T>(a: seq<T>, b: seq<T>, r: Result<seq<T>>)
    ensures Prepend(a, Prepend(b, r)) == Prepend(a + b, r)
  {
    match r {
      case Failure(_) =>
      case Success(rest) => assert a + (b + rest) == (a + b) + rest;
    }
  }

  lemma PrependNothing<T>(r: Result<seq<T>>)
    ensures Prepend([], r) == r
  {
    match r {
      case Failure(_) =>
      case Success(rest) => assert [] + rest == rest;
    }
  }
}
