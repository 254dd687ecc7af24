// Following the cursor of one page to the next, for any list that answers a cursor with a page.

module Paging {
  import opened Base

  datatype Page<R, C> = Page(rows: seq<R>, next: Option<C>)

  function Flatten<R>(pages: seq<seq<R>>): seq<R> {
    if pages == [] then [] else pages[0] + Flatten(pages[1..])
  }

  /** The pages hold the rows, each at most limit of them, and all but the last exactly so. */
  ghost predicate ArePages<R>(pages: seq<seq<R>>, rows: seq<R>, limit: nat) {
    && pages != [] && Flatten(pages) == rows
    && forall i :: 0 <= i < |pages| ==> |pages[i]| <= limit && (i < |pages| - 1 ==> |pages[i]| == limit)
  }

  lemma OnePage<R>(rows: seq<R>, limit: nat)
    requires |rows| <= limit
    ensures ArePages([rows], rows, limit)
  {
    assert [rows][1..] == [];
    assert Flatten([rows]) == rows + [];
  }

  lemma PageBefore<R>(page: seq<R>, pages: seq<seq<R>>, rows: seq<R>, limit: nat)
    requires ArePages(pages, rows, limit) && |page| == limit
    ensures ArePages([page] + pages, page + rows, limit)
  {
    assert ([page] + pages)[1..] == pages;
  }

  /** The page from row k on, with the cursor of the page after it if there is one. */
  ghost predicate IsPageAt<R, C>(all: seq<R>, limit: nat, k: nat, at: nat -> C, page: Page<R, C>)
    requires k <= |all|
  {
    page.rows == all[k..Min(|all|, k + limit)] && page.next == if k + limit < |all| then Some(at(k + limit)) else None
  }

  ghost predicate Serves<R, C>(all: seq<R>, limit: nat, list: C -> Page<R, C>, at: nat -> C) {
    forall k: nat {:trigger at(k)} :: k <= |all| ==> IsPageAt(all, limit, k, at, list(at(k)))
  }

  /** A client that follows the cursors over a list that does not change comes to an end, and is
      given every row from its cursor on exactly once and in order. */
  method Follow<R, C>(all: seq<R>, limit: nat, list: C -> Page<R, C>, cursor: C, ghost k: nat,
        ghost at: nat -> C) returns (pages: seq<seq<R>>)
    requires limit >= 1 && k <= |all| && at(k) == cursor && Serves(all, limit, list, at)
    ensures ArePages(pages, all[k..], limit)
    decreases |all| - k
  {
    var page := list(cursor);
    assert IsPageAt(all, limit, k, at, page);
    if page.next.None? {
      OnePage(page.rows, limit);
      return [page.rows];
    }
    var rest := Follow(all, limit, list, page.next.value, k + limit, at);
    PageBefore(page.rows, rest, all[k + limit..], limit);
    assert all[k..] == page.rows + all[k + limit..];
    return [page.rows] + rest;
  }
}
