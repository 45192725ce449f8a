/** The page window of the filtered name list and the `hasMore` rule. */
module Paging {
  import opened Sequences

  /** Names fetched per page. */
  const PageSize: nat := 15

  function Min(a: int, b: int): int {
    if a <= b then a else b
  }

  /** `names.slice(offset, offset + 15)`: the names from `offset` on, at most a
      page of them; nothing once `offset` is past the end. */
  function PageWindow(names: seq<string>, offset: nat): (w: seq<string>)
    ensures |w| <= PageSize
    ensures offset >= |names| ==> w == []
    ensures offset < |names| ==> |w| == Min(PageSize, |names| - offset)
    ensures forall i :: 0 <= i < |w| ==> w[i] == names[offset + i]
  {
    if offset >= |names| then [] else names[offset..Min(offset + PageSize, |names|)]
  }

  /** More names remain beyond the page at `offset`. */
  predicate HasMore(names: seq<string>, offset: nat): (b: bool)
    ensures b <==> offset + |PageWindow(names, offset)| < |names|
  {
    |names| > offset + PageSize
  }

  /** `hasMore` holds exactly when the next page is not empty, and then the
      page at `offset` is a full one. */
  lemma HasMoreIffNextPageNonEmpty(names: seq<string>, offset: nat)
    ensures HasMore(names, offset) <==> PageWindow(names, offset + PageSize) != []
    ensures HasMore(names, offset) ==> |PageWindow(names, offset)| == PageSize
  {
  }

  /** The pages at offsets 0, 15, ..., 15 * (k - 1), one after the other. */
  function Pages(names: seq<string>, k: nat): seq<string> {
    if k == 0 then [] else Pages(names, k - 1) + PageWindow(names, PageSize * (k - 1))
  }

  /** The first `k` pages are exactly the first `15 * k` names (or all of
      them): in order, with no gap and no name twice. */
  lemma {:induction false} PagesArePrefix(names: seq<string>, k: nat)
    ensures Pages(names, k) == names[..Min(PageSize * k, |names|)]
  {
    if k > 0 {
      PagesArePrefix(names, k - 1);
      var before := names[..Min(PageSize * (k - 1), |names|)];
      var w := PageWindow(names, PageSize * (k - 1));
      if PageSize * (k - 1) >= |names| {
        assert Pages(names, k) == before + [];
      } else {
        assert before + w == names[..Min(PageSize * k, |names|)];
      }
    }
  }

  /** Once `hasMore` is false for the page at `15 * (k - 1)`, the `k` pages
      fetched so far hold the whole list. */
  lemma PagesCoverListWhenNoMore(names: seq<string>, k: nat)
    requires k >= 1 && !HasMore(names, PageSize * (k - 1))
    ensures Pages(names, k) == names
  {
    PagesArePrefix(names, k);
    assert names[..|names|] == names;
  }

  /** While `hasMore` is true, the pages fetched so far are full and leave
      names unseen. */
  lemma PagesLeaveNamesWhileMore(names: seq<string>, k: nat)
    requires k >= 1 && HasMore(names, PageSize * (k - 1))
    ensures |Pages(names, k)| == PageSize * k < |names|
  {
    PagesArePrefix(names, k);
  }

  /** Pages of a list without duplicates repeat no name. */
  lemma PagesNoDuplicates(names: seq<string>, k: nat)
    requires NoDuplicates(names)
    ensures NoDuplicates(Pages(names, k))
  {
    PagesArePrefix(names, k);
  }
}
