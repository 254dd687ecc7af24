// The listings of runs and agents, newest first, and the pages that their cursors connect.

module Listing {
  import opened Base
  import opened Cursors
  import Paging

  datatype Row = Row(createdAt: int, id: string)

  type Page = Paging.Page<Row, string>

  ghost predicate IsStrictOrder(less: (string, string) -> bool) {
    && (forall a, b :: less(a, b) ==> !less(b, a))
    && (forall a, b, c :: less(a, b) && less(b, c) ==> less(a, c))
  }

  /** The filter that a cursor adds to the query. */
  predicate IsPast(r: Row, time: int, id: string, less: (string, string) -> bool) {
    r.createdAt < time || (r.createdAt == time && less(r.id, id))
  }

  /** Newest first, and among equal times the greatest identifier first. */
  ghost predicate IsListing(all: seq<Row>, less: (string, string) -> bool) {
    forall i, j :: 0 <= i < j < |all| ==> IsPast(all[j], all[i].createdAt, all[i].id, less)
  }

  function Past(all: seq<Row>, time: int, id: string, less: (string, string) -> bool): seq<Row> {
    if all == [] then []
    else (if IsPast(all[0], time, id, less) then [all[0]] else []) + Past(all[1..], time, id, less)
  }

  /** Such a listing is newest first, with greater identifiers first among rows of one time. */
  lemma NewestFirst(all: seq<Row>, less: (string, string) -> bool)
    ensures IsListing(all, less) <==>
              forall i, j :: 0 <= i < j < |all| ==>
                               || all[i].createdAt > all[j].createdAt
                               || (all[i].createdAt == all[j].createdAt && less(all[j].id, all[i].id))
  {
  }

  /** The rows past a cursor are the older ones, and those of its time with smaller identifiers. */
  lemma {:induction false} PastExactly(all: seq<Row>, time: int, id: string, less: (string, string) -> bool, r: Row)
    ensures r in Past(all, time, id, less) <==>
              r in all && (r.createdAt < time || (r.createdAt == time && less(r.id, id)))
  {
    if all != [] {
      PastExactly(all[1..], time, id, less, r);
      assert all == [all[0]] + all[1..];
    }
  }

  function CursorOf(r: Row, c: Codec): string {
    c.encode(r.createdAt, r.id)
  }

  /** One row more than the limit is asked for, to see whether there are more. */
  function FirstPage(rows: seq<Row>, limit: nat, c: Codec): Page
    requires limit >= 1
  {
    var found := rows[..Min(|rows|, limit + 1)];
    if |found| > limit then Paging.Page(found[..limit], Some(CursorOf(found[limit - 1], c)))
    else Paging.Page(found, None)
  }

  function ListPage(all: seq<Row>, limit: nat, cursor: string, c: Codec, less: (string, string) -> bool): Result<Page,
        string>
    requires limit >= 1
  {
    match c.decode(cursor)
    case Err(e) => Err(e)
    case Ok(None) => Ok(FirstPage(all, limit, c))
    case Ok(Some((time, id))) => Ok(FirstPage(Past(all, time, id, less), limit, c))
  }

  lemma {:induction false} PastAll(rows: seq<Row>, time: int, id: string, less: (string, string) -> bool)
    requires forall i :: 0 <= i < |rows| ==> IsPast(rows[i], time, id, less)
    ensures Past(rows, time, id, less) == rows
  {
    if rows != [] { PastAll(rows[1..], time, id, less); }
  }

  /** What comes past a row is what follows it, whatever rows share its time. */
  lemma {:induction false} PastIsRest(all: seq<Row>, k: nat, less: (string, string) -> bool)
    requires IsListing(all, less) && IsStrictOrder(less) && k < |all|
    ensures Past(all, all[k].createdAt, all[k].id, less) == all[k + 1..]
  {
    assert !IsPast(all[0], all[k].createdAt, all[k].id, less);
    if k == 0 {
      PastAll(all[1..], all[0].createdAt, all[0].id, less);
    } else {
      PastIsRest(all[1..], k - 1, less);
    }
  }

  /** The cursor that stands before row k. */
  function CursorAt(all: seq<Row>, k: nat, c: Codec): string {
    if k == 0 || k > |all| then "" else CursorOf(all[k - 1], c)
  }

  lemma FirstPageAt(all: seq<Row>, limit: nat, k: nat, c: Codec)
    requires limit >= 1 && k <= |all|
    ensures FirstPage(all[k..], limit, c) ==
            Paging.Page(all[k..Min(|all|, k + limit)], if k + limit < |all| then
                Some(CursorAt(all, k + limit, c)) else None)
  {
  }

  /** The page at a cursor has the rows from there on, up to the limit, and the cursor of the next. */
  lemma PageAt(all: seq<Row>, limit: nat, k: nat, c: Codec, less: (string, string) -> bool)
    requires IsListing(all, less) && IsStrictOrder(less) && IsCodec(c) && limit >= 1 && k <= |all|
    ensures ListPage(all, limit, CursorAt(all, k, c), c, less) ==
            Ok(Paging.Page(all[k..Min(|all|, k + limit)], if k + limit < |all| then
                Some(CursorAt(all, k + limit, c)) else None))
  {
    FirstPageAt(all, limit, k, c);
    if k == 0 {
      assert all[0..] == all;
    } else {
      assert c.decode(c.encode(all[k - 1].createdAt, all[k - 1].id)) == Ok(Some((all[k - 1].createdAt, all[k - 1].id)));
      PastIsRest(all, k - 1, less);
    }
  }

  /** The answer to a cursor, and an empty page for one that is refused. */
  function Listed(all: seq<Row>, limit: nat, cursor: string, c: Codec, less: (string, string) -> bool): Page
    requires limit >= 1
  {
    var r := ListPage(all, limit, cursor, c, less);
    if r.Ok? then r.value else Paging.Page([], None)
  }

  function Lister(all: seq<Row>, limit: nat, c: Codec, less: (string, string) -> bool): string -> Page
    requires limit >= 1
  {
    (cursor: string) => Listed(all, limit, cursor, c, less)
  }

  function CursorsOf(all: seq<Row>, c: Codec): nat -> string {
    (k: nat) => CursorAt(all, k, c)
  }

  /** The listing answers its own cursors as a client that follows them needs. */
  lemma ListingServes(all: seq<Row>, limit: nat, c: Codec, less: (string, string) -> bool)
    requires IsListing(all, less) && IsStrictOrder(less) && IsCodec(c) && limit >= 1
    ensures Paging.Serves(all, limit, Lister(all, limit, c, less), CursorsOf(all, c)) && CursorsOf(all, c)(0) == ""
  {
    var at, list := CursorsOf(all, c), Lister(all, limit, c, less);
    forall k: nat {:trigger at(k)} | k <= |all| ensures Paging.IsPageAt(all, limit, k, at, list(at(k))) {
      PageAt(all, limit, k, c, less);
    }
  }

  /** Rows in a listing are distinct, so that nothing is listed twice. */
  lemma ListedOnce(all: seq<Row>, less: (string, string) -> bool)
    requires IsListing(all, less) && IsStrictOrder(less)
    ensures NoDuplicates(all)
  {
    forall i, j | 0 <= i < j < |all| ensures all[i] != all[j] {
      assert IsPast(all[j], all[i].createdAt, all[i].id, less);
    }
  }

  /** A client that follows next_cursor over an unchanged table comes to an end, and is given every
      row exactly once and in order, in pages that are full except the last. */
  method FollowCursors(all: seq<Row>, limit: nat, f: TimeFormat,
        less: (string, string) -> bool) returns (pages: seq<seq<Row>>)
    requires IsListing(all, less) && IsStrictOrder(less) && IsFormat(f) && limit >= 1
    ensures Paging.ArePages(pages, all, limit) && Paging.Flatten(pages) == all
    ensures NoDuplicates(Paging.Flatten(pages))
  {
    var codec := RowCodec(f);
    RowCodecIsCodec(f);
    ListingServes(all, limit, codec, less);
    ListedOnce(all, less);
    assert all[0..] == all;
    pages := Paging.Follow(all, limit, Lister(all, limit, codec, less), "", 0, CursorsOf(all, codec));
  }
}
