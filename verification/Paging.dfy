/** Page-by-page reading: what a client gets by following hasMore from the first page, and the three ways in which the
    program works out hasMore. */
module Paging {
  import opened Prelude

  datatype Page<T> = Page(data: seq<T>, total: nat, page: int, limit: int, hasMore: bool)

  /** Array.prototype.slice for a start that is not negative. */
  function Slice<T>(s: seq<T>, start: nat, end: nat): seq<T>
    requires start <= end
  {
    s[Min(start, |s|)..Min(end, |s|)]
  }

  function CreatePaginatedResponse<T>(data: seq<T>, total: nat, page: int, limit: int): Page<T> {
    var validPage, validLimit := Max(1, page), Max(1, limit);
    Page(data, total, validPage, validLimit, validPage * validLimit < total)
  }

  lemma OffsetIsNat(page: int, limit: int)
    requires page >= 1 && limit >= 1
    ensures 0 <= (page - 1) * limit && (page - 1) * limit + limit == page * limit
  {
  }

  /** One page of a list already filtered, as findAll and findByType cut it. */
  function FindPage<T>(all: seq<T>, page: int, limit: int): Page<T>
    requires page >= 1 && limit >= 1
  {
    OffsetIsNat(page, limit);
    var start := (page - 1) * limit;
    CreatePaginatedResponse(Slice(all, start, start + limit), |all|, page, limit)
  }

  /** What the response serializer reports. */
  function HasNextPage(total: nat, page: int, limit: int): bool
    requires limit >= 1
  {
    var pages := (total + limit - 1) / limit;
    page < if pages == 0 then 1 else pages
  }

  /** What the base repository reports: the rows skipped and those read are not all. */
  function FindManyHasMore<T>(all: seq<T>, page: int, limit: int): bool
    requires page >= 1 && limit >= 1
  {
    OffsetIsNat(page, limit);
    var skip := (page - 1) * limit;
    skip + |Slice(all, skip, skip + limit)| < |all|
  }

  lemma ProductOrder(a: nat, b: nat, k: nat)
    requires a <= b
    ensures a * k <= b * k
  {
  }

  lemma DivisionRange(n: nat, k: nat)
    requires k >= 1
    ensures n / k * k <= n < (n / k + 1) * k
  {
  }

  lemma CeilingAbove(total: nat, limit: nat, page: nat)
    requires limit >= 1
    ensures page < (total + limit - 1) / limit <==> page * limit < total
  {
    var q := (total + limit - 1) / limit;
    DivisionRange(total + limit - 1, limit);
    assert (page + 1) * limit == page * limit + limit && (q + 1) * limit == q * limit + limit;
    if page < q {
      ProductOrder(page + 1, q, limit);
    } else {
      ProductOrder(q, page, limit);
    }
  }

  /** The three forms agree on every page from the first on, past the end of the list too. */
  lemma HasMoreAgrees<T>(all: seq<T>, page: int, limit: int)
    requires page >= 1 && limit >= 1
    ensures FindPage(all, page, limit).hasMore == HasNextPage(|all|, page, limit) == FindManyHasMore(all, page, limit)
  {
    OffsetIsNat(page, limit);
    CeilingAbove(|all|, limit, page);
  }

  /** The pages a client reads from one page on, following hasMore. */
  function Walk<T>(all: seq<T>, page: int, limit: int): seq<Page<T>>
    requires page >= 1 && limit >= 1
    decreases |all| - page * limit
  {
    var p := FindPage(all, page, limit);
    [p] + if p.hasMore then Walk(all, page + 1, limit) else []
  }

  function Joined<T>(pages: seq<Page<T>>): seq<T> {
    if pages == [] then [] else pages[0].data + Joined(pages[1..])
  }

  lemma Rejoined<T>(all: seq<T>, from: nat, to: nat)
    requires from <= to <= |all|
    ensures all[from..] == all[from..to] + all[to..]
  {
  }

  lemma PageCut<T>(all: seq<T>, page: int, limit: int, from: nat)
    requires page >= 1 && limit >= 1 && from == (page - 1) * limit <= |all|
    ensures var p := FindPage(all, page, limit);
            && page * limit == from + limit
            && (p.hasMore <==> from + limit < |all|)
            && p.data == all[from..Min(from + limit, |all|)]
  {
    OffsetIsNat(page, limit);
  }

  lemma {:induction false} WalkFrom<T>(all: seq<T>, page: int, limit: int, from: nat)
    requires page >= 1 && limit >= 1 && from == (page - 1) * limit <= |all|
    ensures Joined(Walk(all, page, limit)) == all[from..]
    decreases |all| - from
  {
    PageCut(all, page, limit, from);
    var walk := Walk(all, page, limit);
    if from + limit < |all| {
      WalkFrom(all, page + 1, limit, from + limit);
      assert walk[1..] == Walk(all, page + 1, limit);
      Rejoined(all, from, from + limit);
    } else {
      assert walk[1..] == [];
    }
  }

  /** Following hasMore from the first page ends, and reads every element once, in order; every page but the last is
      full. */
  lemma WalkVisitsAll<T>(all: seq<T>, limit: int)
    requires limit >= 1
    ensures Joined(Walk(all, 1, limit)) == all
  {
    WalkFrom(all, 1, limit, 0);
  }

  lemma FullPage<T>(all: seq<T>, page: int, limit: int)
    requires page >= 1 && limit >= 1
    ensures FindPage(all, page, limit).hasMore ==> |FindPage(all, page, limit).data| == limit
  {
    OffsetIsNat(page, limit);
  }

  /** What comes at place i of a sequence that continues f from place page on. */
  ghost predicate Follows<U>(walk: seq<U>, f: int -> U, page: int) {
    forall i :: 0 <= i < |walk| ==> walk[i] == f(page + i)
  }

  lemma FollowsOn<U>(rest: seq<U>, f: int -> U, page: int)
    requires Follows(rest, f, page + 1)
    ensures Follows([f(page)] + rest, f, page)
  {
    forall i | 0 <= i < |rest| + 1
      ensures ([f(page)] + rest)[i] == f(page + i)
    {
      assert i > 0 ==> rest[i - 1] == f(page + 1 + (i - 1));
    }
  }

  function PageAt<T>(all: seq<T>, limit: int): int -> Page<T>
    requires limit >= 1
  {
    page => FindPage(all, Max(1, page), limit)
  }

  lemma {:induction false} WalkFollows<T>(all: seq<T>, page: int, limit: int)
    requires page >= 1 && limit >= 1
    ensures Follows(Walk(all, page, limit), PageAt(all, limit), page)
    decreases |all| - page * limit
  {
    var p := FindPage(all, page, limit);
    assert PageAt(all, limit)(page) == p;
    if p.hasMore {
      OffsetIsNat(page + 1, limit);
      WalkFollows(all, page + 1, limit);
      FollowsOn(Walk(all, page + 1, limit), PageAt(all, limit), page);
    } else {
      assert Walk(all, page, limit) == [p];
    }
  }

  lemma {:induction false} WalkFull<T>(all: seq<T>, page: int, limit: int)
    requires page >= 1 && limit >= 1
    ensures var walk := Walk(all, page, limit);
            |walk| >= 1 && forall i :: 0 <= i < |walk| - 1 ==> |walk[i].data| == limit
    decreases |all| - page * limit
  {
    FullPage(all, page, limit);
    if FindPage(all, page, limit).hasMore {
      OffsetIsNat(page + 1, limit);
      WalkFull(all, page + 1, limit);
    }
  }

  /** The walk is one page after the other, and every page but the last is full. */
  lemma WalkLength<T>(all: seq<T>, page: int, limit: int)
    requires page >= 1 && limit >= 1
    ensures var walk := Walk(all, page, limit);
            && |walk| >= 1
            && (forall i :: 0 <= i < |walk| ==> walk[i] == FindPage(all, page + i, limit))
            && (forall i :: 0 <= i < |walk| - 1 ==> |walk[i].data| == limit)
  {
    var walk := Walk(all, page, limit);
    WalkFull(all, page, limit);
    WalkFollows(all, page, limit);
    forall i | 0 <= i < |walk|
      ensures walk[i] == FindPage(all, page + i, limit)
    {
      assert walk[i] == PageAt(all, limit)(page + i);
    }
  }
}
