/**
 Cursor paging over a source whose listing may change between two page requests.
 */
module Danbooru {
  import opened Wrappers

  const PAGE_SIZE: nat := 200

  // ----- one page

  /** The source's answer to `order:id_desc id:>=lower id:<=top`, cut to n ids. */
  function TopDown(listing: set<nat>, lower: int, top: int, n: nat): seq<nat>
    decreases top - lower + 1
  {
    if n == 0 || top < lower || top < 0 then []
    else if top in listing then [top] + TopDown(listing, lower, top - 1, n - 1)
    else TopDown(listing, lower, top - 1, n)
  }

  /** What `fetch` hands on: entries with id 0 are dropped. */
  function Fetch(listing: set<nat>, lower: int, cursor: int): seq<nat> {
    var raw := TopDown(listing, lower, cursor - 1, PAGE_SIZE);
    if raw != [] && raw[|raw| - 1] == 0 then raw[..|raw| - 1] else raw
  }

  ghost predicate Descending(s: seq<nat>) {
    forall i, j :: 0 <= i < j < |s| ==> s[j] < s[i]
  }

  lemma {:induction false} TopDownSound(listing: set<nat>, lower: int, top: int, n: nat)
    ensures var r := TopDown(listing, lower, top, n);
      && Descending(r) && |r| <= n
      && forall i :: 0 <= i < |r| ==> r[i] in listing && lower <= r[i] <= top
    decreases top - lower + 1
  {
    if n == 0 || top < lower || top < 0 {
    } else if top in listing {
      TopDownSound(listing, lower, top - 1, n - 1);
    } else {
      TopDownSound(listing, lower, top - 1, n);
    }
  }

  lemma {:induction false} TopDownComplete(listing: set<nat>, lower: int, top: int, n: nat, x: nat)
    requires x in listing && lower <= x <= top && x !in TopDown(listing, lower, top, n)
    ensures |TopDown(listing, lower, top, n)| == n
    ensures forall i :: 0 <= i < n ==> x < TopDown(listing, lower, top, n)[i]
    decreases top - lower + 1
  {
    if n == 0 {
    } else if top in listing {
      assert x != top by {
        assert TopDown(listing, lower, top, n)[0] == top;
      }
      var rest := TopDown(listing, lower, top - 1, n - 1);
      assert x !in rest by {
        assert forall y :: y in rest ==> y in [top as nat] + rest;
      }
      TopDownComplete(listing, lower, top - 1, n - 1, x);
    } else {
      TopDownComplete(listing, lower, top - 1, n, x);
    }
  }

  predicate Continues(page: seq<nat>, lower: int) {
    |page| == PAGE_SIZE && page[|page| - 1] > lower
  }

  /** A listed post is on the page, or the scan goes on and will come to it. */
  lemma FetchCatches(listing: set<nat>, lower: int, cursor: int)
    ensures var page := Fetch(listing, lower, cursor);
      && Descending(page)
      && (forall i :: 0 <= i < |page| ==> page[i] in listing && lower <= page[i] < cursor && page[i] != 0)
      && (forall x: nat :: x in listing && x != 0 && lower <= x < cursor ==>
            x in page || (Continues(page, lower) && x < page[|page| - 1]))
      && |page| <= 200 && (Continues(page, lower) <==> |page| == 200 && page[199] > lower)
  {
    TopDownSound(listing, lower, cursor - 1, PAGE_SIZE);
    var raw := TopDown(listing, lower, cursor - 1, PAGE_SIZE);
    var page := Fetch(listing, lower, cursor);
    forall x: nat | x in listing && x != 0 && lower <= x < cursor
      ensures x in page || (Continues(page, lower) && x < page[|page| - 1])
    {
      if x !in raw {
        TopDownComplete(listing, lower, cursor - 1, PAGE_SIZE, x);
      } else {
        var i :| 0 <= i < |raw| && raw[i] == x;
        assert i < |page| && page[i] == x;
      }
    }
  }

  // ----- the scan

  ghost predicate ListedThroughout(source: nat -> Option<set<nat>>, fetches: nat, x: nat) {
    forall k :: 0 <= k < fetches ==> source(k).Some? && x in source(k).value
  }

  ghost predicate ListedOnce(source: nat -> Option<set<nat>>, fetches: nat, x: nat) {
    exists k :: 0 <= k < fetches && source(k).Some? && x in source(k).value
  }

  /** Everything collected is in range, was listed, and comes in descending order above the cursor. */
  ghost predicate Sound(source: nat -> Option<set<nat>>, fetches: nat, lower: int, upper: int, cursor: int,
                        out: seq<nat>)
  {
    && Descending(out)
    && forall i :: 0 <= i < |out| ==>
        lower <= out[i] <= upper && cursor <= out[i] && out[i] != 0 && ListedOnce(source, fetches, out[i])
  }

  /** Nothing that stayed listed at or above the cursor is missing. */
  ghost predicate Caught(source: nat -> Option<set<nat>>, fetches: nat, lower: int, upper: int, cursor: int,
                         out: seq<nat>)
  {
    forall x: nat :: (lower <= x <= upper && cursor <= x && x != 0 && ListedThroughout(source, fetches, x)) ==> x in out
  }

  lemma PageStep(source: nat -> Option<set<nat>>, fetches: nat, lower: int, upper: int, cursor: int, out: seq<nat>)
    requires source(fetches).Some? && lower < cursor <= upper + 1
    requires Sound(source, fetches, lower, upper, cursor, out) && Caught(source, fetches, lower, upper, cursor, out)
    ensures var page := Fetch(source(fetches).value, lower, cursor);
      var next := if Continues(page, lower) then page[|page| - 1] else lower;
      && Descending(page) && (page != [] ==> lower <= page[|page| - 1] < cursor)
      && Sound(source, fetches + 1, lower, upper, next, out + page)
      && Caught(source, fetches + 1, lower, upper, next, out + page)
  {
    var listing := source(fetches).value;
    var page := Fetch(listing, lower, cursor);
    FetchCatches(listing, lower, cursor);
    var next := if Continues(page, lower) then page[|page| - 1] else lower;
    var all := out + page;
    forall i | 0 <= i < |all|
      ensures lower <= all[i] <= upper && next <= all[i] && all[i] != 0 && ListedOnce(source, fetches + 1, all[i])
    {
      if i >= |out| {
        assert all[i] == page[i - |out|] && all[i] in source(fetches).value;
      }
    }
    forall x: nat | lower <= x <= upper && next <= x && x != 0 && ListedThroughout(source, fetches + 1, x)
      ensures x in all
    {
      assert ListedThroughout(source, fetches, x) && x in listing;
      if x < cursor {
        assert x in page;
      }
    }
  }

  lemma CaughtAll(source: nat -> Option<set<nat>>, fetches: nat, lower: int, upper: int, cursor: int, out: seq<nat>)
    requires Caught(source, fetches, lower, upper, cursor, out) && cursor <= lower
    ensures forall x: nat :: lower <= x <= upper && x != 0 && ListedThroughout(source, fetches, x) ==> x in out
  {
  }

  method Lowest(page: seq<nat>) returns (lowest: nat)
    requires page != [] && Descending(page)
    ensures lowest == page[|page| - 1]
  {
    lowest := page[0];
    for i := 0 to |page|
      invariant lowest in page && forall j :: 0 <= j < i ==> lowest <= page[j]
    {
      if page[i] < lowest {
        lowest := page[i];
      }
    }
  }

  /** Pages through [lower, upper]. `source(k)` is the listing the k-th request meets, or None when
      that request fails for good; posts may come and go between requests in any way. Every request but
      the last brings a full page: it stops at the first short one. */
  method PostsInRange(lower: int, upper: int, source: nat -> Option<set<nat>>)
    returns (out: seq<nat>, ok: bool, ghost fetches: nat)
    ensures lower > upper ==> !ok && out == []
    ensures Descending(out)
    ensures forall i :: 0 <= i < |out| ==>
      lower <= out[i] <= upper && out[i] != 0 && ListedOnce(source, fetches, out[i])
    ensures ok ==> forall x: nat :: lower <= x <= upper && x != 0 && ListedThroughout(source, fetches, x) ==> x in out
    ensures !ok && lower <= upper ==> source(fetches).None?
    ensures ok ==> fetches > 0 && 200 * (fetches - 1) <= |out|
    ensures !ok ==> 200 * fetches <= |out|
  {
    out, fetches := [], 0;
    if lower > upper {
      return out, false, fetches;
    }
    var cursor := upper + 1;
    var asked: nat := 0;
    ghost var reached := cursor;
    while cursor > lower
      invariant fetches == asked && reached == cursor <= upper + 1 && 200 * asked <= |out|
      invariant asked > 0 || cursor == upper + 1
      invariant Sound(source, fetches, lower, upper, reached, out)
      invariant Caught(source, fetches, lower, upper, reached, out)
      decreases cursor - lower
    {
      var listing := source(asked);
      if listing.None? {
        return out, false, fetches;
      }
      PageStep(source, fetches, lower, upper, cursor, out);
      var page := Fetch(listing.value, lower, cursor);
      asked := asked + 1;
      fetches := asked;
      if |page| == 0 {
        assert out + page == out;
        reached := lower;
        break;
      }
      var lowest := Lowest(page);
      out := out + page;
      if lowest <= lower || |page| < PAGE_SIZE {
        reached := lower;
        break;
      }
      cursor := lowest;
      reached := cursor;
    }
    ok := true;
    CaughtAll(source, fetches, lower, upper, reached, out);
  }
}
