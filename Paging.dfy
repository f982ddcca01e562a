/** The page protocol of a container query: an answer is served as a
    sequence of pages, each with the token at which the next page begins,
    the last one without a token. */
module Paging {
  import opened Common

  datatype Page<T> = Page(items: seq<T>, continuationToken: Option<Token>)

  /** MaxItemCount = limit ?? -1: a positive limit is the page size; any
      other value lets the store choose, modelled as one page (0). */
  function PageSize(limit: Option<int32>): nat {
    if limit.Some? && limit.value > 0 then limit.value as nat else 0
  }

  /** Where a query resumes: at the token, clamped to the answer; at the start without one. */
  function StartOffset(token: Option<Token>, n: nat): (k: nat)
    ensures k <= n
  {
    match token
    case None => 0
    case Some(t) => if t <= n then t else n
  }

  /** The pages the store serves for `rows[from..]`. */
  function Paginate<T>(rows: seq<T>, from: nat, size: nat): seq<Page<T>>
    requires from <= |rows|
    decreases |rows| - from
  {
    if size == 0 || |rows| - from <= size then [Page(rows[from..], None)]
    else [Page(rows[from..from + size], Some(from + size))] + Paginate(rows, from + size, size)
  }

  function Flatten<T>(pages: seq<Page<T>>): seq<T> {
    if pages == [] then [] else pages[0].items + Flatten(pages[1..])
  }

  /** Only the last page lacks a continuation token. */
  ghost predicate WellFormed<T>(pages: seq<Page<T>>) {
    && |pages| >= 1
    && forall i :: 0 <= i < |pages| ==> (pages[i].continuationToken.None? <==> i == |pages| - 1)
  }

  lemma {:induction false} FlattenAppend<T>(pages: seq<Page<T>>, p: Page<T>)
    ensures Flatten(pages + [p]) == Flatten(pages) + p.items
  {
    if pages != [] {
      assert (pages + [p])[1..] == pages[1..] + [p];
      FlattenAppend(pages[1..], p);
    } else {
      assert [p][1..] == [];
    }
  }

  /** The pages together hold exactly the rows from `from` on, in order. */
  lemma {:induction false} PaginateCovers<T>(rows: seq<T>, from: nat, size: nat)
    requires from <= |rows|
    ensures Flatten(Paginate(rows, from, size)) == rows[from..]
    decreases |rows| - from
  {
    if !(size == 0 || |rows| - from <= size) {
      PaginateCovers(rows, from + size, size);
      assert rows[from..] == rows[from..from + size] + rows[from + size..];
    } else {
      assert [Page(rows[from..], None)][1..] == [];
    }
  }

  /** A positive page size bounds every page, and only the last page has no token. */
  lemma {:induction false} PaginateShape<T>(rows: seq<T>, from: nat, size: nat)
    requires from <= |rows|
    ensures WellFormed(Paginate(rows, from, size))
    ensures size > 0 ==> forall i :: 0 <= i < |Paginate(rows, from, size)| ==> |Paginate(rows, from, size)[i].items| <= size
    decreases |rows| - from
  {
    if !(size == 0 || |rows| - from <= size) {
      PaginateShape(rows, from + size, size);
    }
  }

  /** Resuming at a page's token serves exactly the pages after it: following
      the tokens yields every row once, with no gap and no repetition. */
  lemma {:induction false} PaginateResumes<T>(rows: seq<T>, from: nat, size: nat, i: nat)
    requires from <= |rows|
    requires i < |Paginate(rows, from, size)|
    requires Paginate(rows, from, size)[i].continuationToken.Some?
    ensures Paginate(rows, from, size)[i].continuationToken.value <= |rows|
    ensures Paginate(rows, Paginate(rows, from, size)[i].continuationToken.value, size)
            == Paginate(rows, from, size)[i + 1..]
    decreases |rows| - from
  {
    if i > 0 {
      PaginateResumes(rows, from + size, size, i - 1);
    }
  }

  /** The store's query iterator over an answer's pages. */
  class QueryIterator<T> {
    const pages: seq<Page<T>>
    var next: nat

    ghost predicate Valid()
      reads this
    {
      next <= |pages| && WellFormed(pages)
    }

    constructor(pages: seq<Page<T>>)
      requires WellFormed(pages)
      ensures Valid() && this.pages == pages && next == 0
    {
      this.pages := pages;
      next := 0;
    }

    /** True until a page without a continuation token has been read. */
    predicate HasMoreResults()
      requires Valid()
      reads this
      ensures HasMoreResults() <==> next < |pages|
    {
      next == 0 || pages[next - 1].continuationToken.Some?
    }

    method ReadNext() returns (page: Page<T>)
      requires Valid() && HasMoreResults()
      modifies this
      ensures Valid()
      ensures page == pages[old(next)] && next == old(next) + 1
    {
      page := pages[next];
      next := next + 1;
    }
  }

  /** Each item converted, in order. */
  function MapItems<T, U>(convert: T -> U, xs: seq<T>): seq<U> {
    seq(|xs|, i requires 0 <= i < |xs| => convert(xs[i]))
  }

  lemma MapItemsAppend<T, U>(convert: T -> U, xs: seq<T>, ys: seq<T>)
    ensures MapItems(convert, xs + ys) == MapItems(convert, xs) + MapItems(convert, ys)
  {
  }

  /** The storages' read loop: while the iterator has more results, read a
      page and append each of its items, converted; the token answered is the
      one of the last page read. A drained iterator's last page has none. */
  method DrainPages<T, U>(feed: QueryIterator<T>, convert: T -> U) returns (items: seq<U>, token: Option<Token>)
    requires feed.Valid() && feed.next == 0
    modifies feed
    ensures items == MapItems(convert, Flatten(feed.pages))
    ensures token == None
  {
    items := [];
    var lastPage: Option<Page<T>> := None;
    while feed.HasMoreResults()
      invariant feed.Valid()
      invariant items == MapItems(convert, Flatten(feed.pages[..feed.next]))
      invariant lastPage.None? <==> feed.next == 0
      invariant lastPage.Some? ==> lastPage.value == feed.pages[feed.next - 1]
      decreases |feed.pages| - feed.next
    {
      ghost var before := feed.pages[..feed.next];
      var page := feed.ReadNext();
      lastPage := Some(page);
      var k := 0;
      while k < |page.items|
        modifies {}
        invariant 0 <= k <= |page.items|
        invariant items == MapItems(convert, Flatten(before) + page.items[..k])
      {
        assert page.items[..k + 1] == page.items[..k] + [page.items[k]];
        MapItemsAppend(convert, Flatten(before) + page.items[..k], [page.items[k]]);
        items := items + [convert(page.items[k])];
        k := k + 1;
      }
      assert page.items[..k] == page.items;
      assert feed.pages[..feed.next] == before + [page];
      FlattenAppend(before, page);
    }
    assert feed.pages[..feed.next] == feed.pages;
    token := if lastPage.Some? then lastPage.value.continuationToken else None;
  }
}
