/**
 * The page loops of the fetch scripts. Every HTTP page becomes one entry of
 * an input sequence: `Failed` for a request that raised (or, in
 * scripts/fetch-members.py, for `fetch_api` returning `None`), `Fetched`
 * with the decoded list otherwise. Reading past the end of the sequence
 * counts as a failed request.
 */
module Paging {
  import opened Collections

  datatype Page<T> = Failed | Fetched(items: seq<T>)

  /** The items a page contributes when it is read (none for a failure). */
  function ItemsOf<T>(p: Page<T>): seq<T>
  {
    if p.Fetched? then p.items else []
  }

  /** The items of pages `i..k`, in order. */
  function ItemsFrom<T>(pages: seq<Page<T>>, i: nat, k: nat): seq<T>
    requires k <= |pages|
    decreases k - i
  {
    if i >= k then [] else ItemsOf(pages[i]) + ItemsFrom(pages, i + 1, k)
  }

  // ---------------------------------------------------------------------
  // The repository-list walk (`get_github_repo_by_organization_name`):
  // keep going while a page has exactly `pageSize` items.

  /** A page after which the `need_next_page = len(data) == page_size` loop stops. */
  predicate EndsFullWalk<T>(p: Page<T>, pageSize: nat)
  {
    p.Failed? || |p.items| != pageSize
  }

  /**
   * The items collected from page `i` on by a loop that reads a page, keeps
   * its items, and asks for the next one only when the page had exactly
   * `pageSize` items; a failed page contributes nothing and ends the loop.
   */
  function WhileFull<T>(pages: seq<Page<T>>, pageSize: nat, i: nat): seq<T>
    decreases |pages| - i
  {
    if i >= |pages| then []
    else if EndsFullWalk(pages[i], pageSize) then ItemsOf(pages[i])
    else pages[i].items + WhileFull(pages, pageSize, i + 1)
  }

  /**
   * The walk reads exactly the pages `i..k`, where `k` is the first page
   * that is not full: it collects their items and nothing after them.
   */
  lemma {:induction false} WhileFullStopsAt<T>(pages: seq<Page<T>>, pageSize: nat, i: nat, k: nat)
    requires i <= k < |pages|
    requires EndsFullWalk(pages[k], pageSize)
    requires forall j :: i <= j < k ==> !EndsFullWalk(pages[j], pageSize)
    ensures WhileFull(pages, pageSize, i) == ItemsFrom(pages, i, k + 1)
    decreases k - i
  {
    if i < k {
      WhileFullStopsAt(pages, pageSize, i + 1, k);
    }
  }

  /** Pages after the one that ends the walk are never read. */
  lemma {:induction false} WhileFullIgnoresLaterPages<T>(pages: seq<Page<T>>, more: seq<Page<T>>, pageSize: nat, i: nat)
    requires exists k :: i <= k < |pages| && EndsFullWalk(pages[k], pageSize)
    ensures WhileFull(pages + more, pageSize, i) == WhileFull(pages, pageSize, i)
    decreases |pages| - i
  {
    var all := pages + more;
    assert all[i] == pages[i];
    if !EndsFullWalk(pages[i], pageSize) {
      var k :| i <= k < |pages| && EndsFullWalk(pages[k], pageSize);
      assert k != i;
      WhileFullIgnoresLaterPages(pages, more, pageSize, i + 1);
    }
  }

  // ---------------------------------------------------------------------
  // Member-pipeline loops: stop at an empty or failed page, after a short
  // page, or once the page counter passes `maxPages`.

  /** A page after which the `while True` loop of scripts/fetch-members.py breaks. */
  predicate EndsCappedWalk<T>(p: Page<T>, perPage: nat, maxPages: nat, i: nat)
  {
    p.Failed? || p.items == [] || |p.items| < perPage || i + 2 > maxPages
  }

  /**
   * The items collected from page `i` (page number `i + 1`) on: an empty or
   * failed page ends the loop without contributing; otherwise its items are
   * kept, and the loop goes on only when the page was not short and the next
   * page number stays within `maxPages`.
   */
  function Capped<T>(pages: seq<Page<T>>, perPage: nat, maxPages: nat, i: nat): seq<T>
    decreases |pages| - i
  {
    if i >= |pages| then []
    else if pages[i].Failed? || pages[i].items == [] then []
    else if EndsCappedWalk(pages[i], perPage, maxPages, i) then pages[i].items
    else pages[i].items + Capped(pages, perPage, maxPages, i + 1)
  }

  /** Nothing is read after the first page that ends the loop. */
  lemma {:induction false} CappedStopsAt<T>(pages: seq<Page<T>>, perPage: nat, maxPages: nat, i: nat, k: nat)
    requires i <= k < |pages|
    requires EndsCappedWalk(pages[k], perPage, maxPages, k)
    ensures Capped(pages, perPage, maxPages, i) == Capped(pages[..k + 1], perPage, maxPages, i)
    decreases k - i
  {
    var pre := pages[..k + 1];
    assert pre[i] == pages[i];
    if i < k && !EndsCappedWalk(pages[i], perPage, maxPages, i) {
      CappedStopsAt(pages, perPage, maxPages, i + 1, k);
    }
  }

  /** Page number `maxPages + 1` and later are never requested. */
  lemma CappedAtMostMaxPages<T>(pages: seq<Page<T>>, perPage: nat, maxPages: nat)
    requires 1 <= maxPages < |pages|
    ensures Capped(pages, perPage, maxPages, 0) == Capped(pages[..maxPages], perPage, maxPages, 0)
  {
    assert EndsCappedWalk(pages[maxPages - 1], perPage, maxPages, maxPages - 1);
    CappedStopsAt(pages, perPage, maxPages, 0, maxPages - 1);
  }

  /** The number of items kept is at most `perPage` per page for at most `maxPages` pages, when pages are not oversized. */
  lemma {:induction false} CappedBound<T>(pages: seq<Page<T>>, perPage: nat, maxPages: nat, i: nat)
    requires forall j :: 0 <= j < |pages| && pages[j].Fetched? ==> |pages[j].items| <= perPage
    requires i < maxPages
    ensures |Capped(pages, perPage, maxPages, i)| <= perPage * (maxPages - i)
    decreases |pages| - i
  {
    var rest: nat := maxPages - i - 1;
    assert perPage * (maxPages - i) == perPage + perPage * rest;
    if i < |pages| && !pages[i].Failed? && pages[i].items != [] && !EndsCappedWalk(pages[i], perPage, maxPages, i) {
      CappedBound(pages, perPage, maxPages, i + 1);
    }
  }
}
