/** The fetch stage of the program (`hndsimpl.topStories`): list the ranked
    story ids, launch one fetch task per id for the first `NumStories` of them,
    and collect each task's story into the slot of its rank.

    The network and JSON decoding are parameters: `list` is the outcome of
    fetching and decoding the ranked id list, and `fetch` gives, for each id,
    the outcome of fetching and decoding that item. The tasks run concurrently
    in the program; each one only reads `fetch` and writes its own slot, so any
    interleaving ends in the same state as running the tasks one after another
    in the order they complete. That completion order is the parameter `order`. */
module TopStories {
  import opened Types

  /** Number of fetch tasks launched for a ranking: min(NumStories, |ids|). */
  function Launched(ids: seq<int>): (n: nat)
    ensures n <= NumStories && n <= |ids|
    ensures n == NumStories || n == |ids|
  {
    if |ids| < NumStories then |ids| else NumStories
  }

  /** Task indices 0, 1, ..., n - 1. */
  function Indices(n: nat): seq<nat> {
    seq(n, i => i)
  }

  /** `order` lists the `n` launched tasks in the order they complete, each once. */
  predicate IsSchedule(order: seq<nat>, n: nat) {
    multiset(order) == multiset(Indices(n))
  }

  /** Every launched task succeeds in fetching and decoding its story. */
  predicate AllFetched(ids: seq<int>, fetch: int -> Result<Story, Error>) {
    forall i :: 0 <= i < Launched(ids) ==> fetch(ids[i]).Success?
  }

  /** The slots after every launched task has written its story: slot `r` holds
      the story of the rank-`r` id when a task was launched for it, and the zero
      story otherwise. */
  function Slots(ids: seq<int>, fetch: int -> Result<Story, Error>): (s: seq<Story>)
    requires AllFetched(ids, fetch)
  {
    seq(NumStories, r requires 0 <= r < NumStories =>
      if r < Launched(ids) then fetch(ids[r]).value else ZeroStory)
  }

  /** The `NumStories` zero stories the program returns beside an error. */
  function ZeroStories(): (s: seq<Story>) {
    seq(NumStories, _ => ZeroStory)
  }

  /** Only launched ranks matter: two item sources that agree on the first
      `Launched(ids)` ids give the same verdict and the same slots, and ids at
      rank `NumStories` or later are never looked at. */
  lemma SlotsDependOnLaunchedOnly(ids: seq<int>, f: int -> Result<Story, Error>,
                                  g: int -> Result<Story, Error>)
    requires forall r :: 0 <= r < Launched(ids) ==> f(ids[r]) == g(ids[r])
    ensures AllFetched(ids, f) == AllFetched(ids, g)
    ensures AllFetched(ids, f) ==> Slots(ids, f) == Slots(ids, g)
    ensures var head := ids[..Launched(ids)];
      && Launched(head) == Launched(ids)
      && AllFetched(head, f) == AllFetched(ids, f)
      && (AllFetched(ids, f) ==> Slots(head, f) == Slots(ids, f))
  {
  }

  /** A fetch task, bound at launch to the slot it writes and the id it fetches. */
  datatype Task = Task(slot: nat, id: int)

  lemma ScheduleCovers(order: seq<nat>, n: nat)
    requires IsSchedule(order, n)
    ensures |order| == n
    ensures forall k :: 0 <= k < |order| ==> order[k] < n
    ensures forall r :: 0 <= r < n ==> r in order
  {
    assert |multiset(order)| == |multiset(Indices(n))|;
    forall k | 0 <= k < |order| ensures order[k] < n {
      assert order[k] in multiset(order);
      assert order[k] in multiset(Indices(n));
    }
    forall r | 0 <= r < n ensures r in order {
      assert Indices(n)[r] == r;
      assert r in multiset(Indices(n));
      assert r in multiset(order);
    }
  }

  /** `topStories`: a result of exactly `NumStories` slots on every return; the
      listing's error beside zero stories; otherwise, once every launched task
      has completed, slot `r` holds the story of rank `r`, whatever the completion
      order. A failing fetch aborts the process with the error of one of the
      failing launched tasks. `fetched` records the ids passed to `fetch`: only
      ranks below `NumStories`, and each launched id exactly when all succeed. */
  method FetchTopStories(list: Result<seq<int>, Error>, fetch: int -> Result<Story, Error>,
                         order: seq<nat>)
    returns (r: Outcome<seq<Story>>, ghost fetched: seq<int>)
    requires list.Success? ==> IsSchedule(order, Launched(list.value))
    ensures r.Returned? ==> |r.value| == NumStories
    ensures list.Failure? ==> r == Returned(ZeroStories(), Some(list.error)) && fetched == []
    ensures r.Panicked? <==> list.Success? && !AllFetched(list.value, fetch)
    ensures list.Success? && AllFetched(list.value, fetch) ==>
              r == Returned(Slots(list.value, fetch), None)
    ensures r.Panicked? ==>
              && r.cause.ErrorPanic?
              && exists i :: 0 <= i < Launched(list.value) && fetch(list.value[i]) == Failure(r.cause.err)
    ensures list.Success? ==>
              && |fetched| <= Launched(list.value)
              && forall id :: id in fetched ==> id in list.value[..Launched(list.value)]
    ensures list.Success? && AllFetched(list.value, fetch) ==>
              && |fetched| == Launched(list.value)
              && forall i :: 0 <= i < Launched(list.value) ==> list.value[i] in fetched
  {
    var stories := new Story[NumStories](_ => ZeroStory);
    fetched := [];
    if list.Failure? {
      assert stories[..] == ZeroStories();
      return Returned(stories[..], Some(list.error)), fetched;
    }
    var topIDs := list.value;
    ghost var n := Launched(topIDs);

    // Launch: one task per ranked id, stopping at NumStories.
    var tasks: seq<Task> := [];
    var idx := 0;
    while idx < |topIDs|
      invariant idx <= |topIDs| && idx <= NumStories
      invariant |tasks| == idx
      invariant forall j :: 0 <= j < idx ==> tasks[j] == Task(j, topIDs[j])
    {
      if idx >= NumStories {
        break;
      }
      tasks := tasks + [Task(idx, topIDs[idx])];
      idx := idx + 1;
    }
    assert |tasks| == n;

    // Completion: each task writes the story it fetched into its own slot.
    ScheduleCovers(order, n);
    ghost var done: set<nat> := {};
    var k := 0;
    while k < |order|
      invariant k <= |order|
      invariant |fetched| == k
      invariant forall j :: 0 <= j < k ==> fetched[j] == topIDs[order[j]]
      invariant forall j :: 0 <= j < k ==> order[j] in done
      invariant forall s :: s in done ==> s < n && fetch(topIDs[s]) == Success(stories[s])
      invariant forall s :: 0 <= s < NumStories && s !in done ==> stories[s] == ZeroStory
    {
      var task := tasks[order[k]];
      var res := fetch(task.id);
      fetched := fetched + [task.id];
      if res.Failure? {
        return Panicked(ErrorPanic(res.error)), fetched;
      }
      stories[task.slot] := res.value;
      done := done + {task.slot};
      k := k + 1;
    }
    forall i | 0 <= i < n ensures i in done && topIDs[i] in fetched {
      assert i in order;
      var j :| 0 <= j < |order| && order[j] == i;
      assert fetched[j] == topIDs[i];
    }
    assert stories[..] == Slots(topIDs, fetch);
    return Returned(stories[..], None), fetched;
  }

  /** Three ranked ids whose fetches complete in the order 103, 101, 102: the
      slots still come out in rank order, and the remaining 27 hold the zero story. */
  method RankOrderScenario() {
    var first := Story(101, "a", "first", "https://a.example", 5, 0, []);
    var second := Story(102, "b", "second", "https://b.example", 10, 0, []);
    var third := Story(103, "c", "third", "https://c.example", 1, 0, []);
    var fetch := (id: int) =>
      if id == 101 then Success(first) else if id == 102 then Success(second)
      else if id == 103 then Success(third) else Failure(GetError);
    var ids := [101, 102, 103];
    assert Indices(3) == [0, 1, 2];
    assert multiset([2, 0, 1]) == multiset(Indices(3));
    var r, _ := FetchTopStories(Success(ids), fetch, [2, 0, 1]);
    assert AllFetched(ids, fetch);
    assert r.value[0] == first && r.value[1] == second && r.value[2] == third;
    assert r.value[3] == ZeroStory;
  }
}
