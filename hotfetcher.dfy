/** The presentation stage (`hnHotFetcher.run`): map the stories the data
    service returns, index for index, onto the launcher's output items. */
module HotFetcher {
  import opened Types
  import opened Alfred
  import opened TopStories

  /** `run` over the data service's answer `(stories, err)`: on an error the
      `NumStories` zero items together with that error; otherwise item `idx`
      shows story `idx` for every story returned (title, link, valid, an `alt`
      action opening the discussion page, no `cmd` action) and the items past the
      last story stay zero. A data service returning more than `NumStories`
      stories makes the write to item `NumStories` go out of range.
      The clock is read afresh for every item: `clock(idx)` is the current time
      when item `idx` is formatted. */
  method Run(stories: seq<Story>, err: Option<Error>, clock: nat -> int) returns (r: Outcome<seq<Item>>)
    ensures r.Returned? ==> |r.value| == NumStories && r.err == err
    ensures err.Some? ==> r == Returned(ZeroItems(), err)
    ensures r.Panicked? <==> err.None? && |stories| > NumStories
    ensures r.Panicked? ==> r.cause == IndexOutOfRange(NumStories, NumStories)
    ensures err.None? && |stories| <= NumStories ==>
              forall idx :: |stories| <= idx < NumStories ==> r.value[idx] == ZeroItem
    ensures err.None? && |stories| <= NumStories ==>
              && r.Returned?
              && forall idx :: 0 <= idx < |stories| ==> r.value[idx] == Present(stories[idx], clock(idx))
  {
    var items := ZeroItems();
    if err.Some? {
      return Returned(items, err);
    }
    ghost var shown := seq(|stories|, j requires 0 <= j < |stories| => Present(stories[j], clock(j)));
    var idx := 0;
    while idx < |stories|
      invariant idx <= |stories| && idx <= |items| == NumStories
      invariant forall j :: 0 <= j < idx ==> items[j] == shown[j]
      invariant forall j :: idx <= j < |items| ==> items[j] == ZeroItem
    {
      if idx >= |items| {
        return Panicked(IndexOutOfRange(idx, |items|));
      }
      items := items[idx := Present(stories[idx], clock(idx))];
      idx := idx + 1;
    }
    return Returned(items, None);
  }

  /** `run` of the program's own fetcher: the listing's error beside zero items;
      an abort when a launched fetch fails; otherwise exactly `NumStories` items
      where item `idx` shows the story fetched for rank `idx` and, past the end of
      a short ranking, the zero story (an item with an empty title that still
      links to discussion id 0). Which task completes first does not matter. */
  method HotFetcherRun(list: Result<seq<int>, Error>, fetch: int -> Result<Story, Error>,
                       order: seq<nat>, clock: nat -> int)
    returns (r: Outcome<seq<Item>>)
    requires list.Success? ==> IsSchedule(order, Launched(list.value))
    ensures list.Failure? ==> r == Returned(ZeroItems(), Some(list.error))
    ensures r.Panicked? <==> list.Success? && !AllFetched(list.value, fetch)
    ensures r.Panicked? ==>
              && r.cause.ErrorPanic?
              && exists i :: 0 <= i < Launched(list.value) && fetch(list.value[i]) == Failure(r.cause.err)
    ensures list.Success? && AllFetched(list.value, fetch) ==>
              && r.Returned? && r.err.None? && |r.value| == NumStories
              && (forall idx :: 0 <= idx < Launched(list.value) ==>
                    r.value[idx] == Present(fetch(list.value[idx]).value, clock(idx)))
              && (forall idx :: Launched(list.value) <= idx < NumStories ==>
                    r.value[idx] == Present(ZeroStory, clock(idx)))
  {
    var top, fetchedIds := FetchTopStories(list, fetch, order);
    if top.Panicked? {
      return Panicked(top.cause);
    }
    r := Run(top.value, top.err, clock);
  }
}
