/** The window of run events that the desktop client keeps: batches merged by id, sorted, and cut to the newest. */
module RunEventWindow {
  import opened Sequences

  type RunId = nat

  /** A run event. The content stands for its type, payload and time. */
  datatype RunEvent = RunEvent(id: int, runId: RunId, content: nat)

  // ----- ids in order

  ghost function Any<T>(items: set<T>): (item: T)
    requires items != {}
    ensures item in items
  {
    var item :| item in items;
    item
  }

  lemma {:induction false} OldestExists(ids: set<int>)
    requires ids != {}
    ensures exists id :: id in ids && forall other | other in ids :: id <= other
  {
    var id := Any(ids);
    var rest := ids - {id};
    if rest == {} {
      assert ids == {id};
    } else {
      OldestExists(rest);
      var oldest :| oldest in rest && forall other | other in rest :: oldest <= other;
      var result := if id < oldest then id else oldest;
      assert forall other | other in ids :: other == id || other in rest;
      assert result in ids && forall other | other in ids :: result <= other;
    }
  }

  function Oldest(ids: set<int>): (id: int)
    requires ids != {}
    ensures id in ids && forall other | other in ids :: id <= other
  {
    OldestExists(ids);
    var id :| id in ids && forall other | other in ids :: id <= other;
    id
  }

  function WithoutOldest(ids: set<int>): (rest: set<int>)
    requires ids != {}
    ensures |rest| == |ids| - 1
  {
    ids - {Oldest(ids)}
  }

  function SortIds(ids: set<int>): (sorted: seq<int>)
    ensures |sorted| == |ids|
    ensures forall i | 0 <= i < |sorted| :: sorted[i] in ids
    decreases |ids|
  {
    if ids == {} then [] else [Oldest(ids)] + SortIds(WithoutOldest(ids))
  }

  lemma {:induction false} SortIdsSorts(ids: set<int>)
    ensures forall i, j | 0 <= i < j < |SortIds(ids)| :: SortIds(ids)[i] < SortIds(ids)[j]
    ensures forall id | id in ids :: id in SortIds(ids)
    decreases |ids|
  {
    if ids != {} {
      SortIdsSorts(WithoutOldest(ids));
    }
  }

  function LastOnes<T>(items: seq<T>, n: nat): seq<T> {
    if |items| <= n then items else items[|items| - n..]
  }

  /** The n greatest ids, or all of them. */
  function NewestIds(ids: set<int>, n: nat): (newest: set<int>)
    ensures newest <= ids
    decreases |ids|
  {
    if |ids| <= n then ids else NewestIds(WithoutOldest(ids), n)
  }

  lemma {:induction false} LastIdsAreNewest(ids: set<int>, n: nat)
    ensures LastOnes(SortIds(ids), n) == SortIds(NewestIds(ids, n))
    decreases |ids|
  {
    if |ids| > n {
      LastIdsAreNewest(WithoutOldest(ids), n);
      assert SortIds(ids)[1..] == SortIds(WithoutOldest(ids));
    }
  }

  lemma {:induction false} NewestIdsMeaning(ids: set<int>, n: nat)
    ensures forall id, cut | id in NewestIds(ids, n) && cut in ids && cut !in NewestIds(ids, n) :: cut < id
    ensures |NewestIds(ids, n)| == if |ids| <= n then |ids| else n
    decreases |ids|
  {
    if |ids| > n {
      NewestIdsMeaning(WithoutOldest(ids), n);
      assert forall cut | cut in ids :: cut == Oldest(ids) || cut in WithoutOldest(ids);
    }
  }

  // ----- cutting commutes with adding

  ghost function Above(ids: set<int>, id: int): set<int> {
    set other | other in ids && id < other
  }

  lemma {:induction false} SubsetSize(small: set<int>, large: set<int>)
    requires small <= large
    ensures |small| <= |large|
  {
    assert large == small + (large - small);
  }

  lemma MoreThanAbove(ids: set<int>, id: int)
    requires id in ids
    ensures |Above(ids, id)| < |ids|
  {
    SubsetSize(Above(ids, id) + {id}, ids);
  }

  lemma OldestStays(ids: set<int>, id: int)
    requires id in ids && id != Oldest(ids)
    ensures ids - {id} != {}
    ensures Oldest(ids - {id}) == Oldest(ids)
    ensures WithoutOldest(ids - {id}) == WithoutOldest(ids) - {id}
    ensures id in WithoutOldest(ids)
    ensures Above(WithoutOldest(ids), id) == Above(ids, id)
    ensures |Above(ids, id)| < |ids - {id}|
  {
    assert Oldest(ids) in ids - {id};
    SubsetSize(Above(ids, id) + {Oldest(ids)}, ids - {id});
  }

  /** An id with at least n greater ones is not among the greatest n. */
  lemma {:induction false} OldIdIsCut(ids: set<int>, n: nat, id: int)
    requires id in ids && |Above(ids, id)| >= n
    ensures NewestIds(ids, n) == NewestIds(ids - {id}, n)
    decreases |ids|
  {
    MoreThanAbove(ids, id);
    if id != Oldest(ids) {
      OldestStays(ids, id);
      OldIdIsCut(WithoutOldest(ids), n, id);
    }
  }

  /** What is cut is not among the newest after more has been added either. */
  lemma {:induction false} CutThenAdd(ids: set<int>, more: set<int>, n: nat)
    ensures NewestIds(NewestIds(ids, n) + more, n) == NewestIds(ids + more, n)
    decreases |ids|
  {
    if |ids| > n {
      var oldest, rest := Oldest(ids), WithoutOldest(ids);
      CutThenAdd(rest, more, n);
      if oldest in more {
        assert rest + more == ids + more;
      } else {
        assert rest + more == ids + more - {oldest};
        SubsetSize(rest, Above(ids + more, oldest));
        OldIdIsCut(ids + more, n, oldest);
      }
    }
  }

  // ----- the merge

  /** The events by id; of several with one id the last counts. */
  function Collect(events: seq<RunEvent>): map<int, RunEvent> {
    if events == [] then map[]
    else Collect(events[..|events| - 1])[events[|events| - 1].id := events[|events| - 1]]
  }

  ghost predicate KeyedById(m: map<int, RunEvent>) {
    forall id | id in m :: m[id].id == id
  }

  function Lookup(m: map<int, RunEvent>, ids: seq<int>): (events: seq<RunEvent>)
    requires forall i | 0 <= i < |ids| :: ids[i] in m
    ensures |events| == |ids|
  {
    seq(|ids|, i requires 0 <= i < |ids| => m[ids[i]])
  }

  /** The events of a map in the order of their ids. */
  function SortById(m: map<int, RunEvent>): seq<RunEvent> {
    Lookup(m, SortIds(m.Keys))
  }

  function Limit(limit: int): nat {
    if limit < 1 then 1 else limit
  }

  /** mergeLocalRunEvents as a function of its arguments. */
  function Merge(current: seq<RunEvent>, incoming: seq<RunEvent>, limit: int): seq<RunEvent> {
    LastOnes(SortById(Collect(current + incoming)), Limit(limit))
  }

  lemma CollectNext(before: seq<RunEvent>, events: seq<RunEvent>, i: nat)
    requires i < |events|
    ensures Collect(before + events[..i + 1]) == Collect(before + events[..i])[events[i].id := events[i]]
  {
    var longer := before + events[..i + 1];
    assert longer[..|longer| - 1] == before + events[..i];
  }

  method MergeLocalRunEvents(current: seq<RunEvent>, incoming: seq<RunEvent>, limit: int)
    returns (merged: seq<RunEvent>)
    ensures merged == Merge(current, incoming, limit)
  {
    hide Collect, SortById;
    var events := map[];
    assert events == Collect([]) by { CollectEmpty(); }
    assert [] + current[..0] == [];
    for i := 0 to |current|
      invariant events == Collect([] + current[..i])
    {
      CollectNext([], current, i);
      events := events[current[i].id := current[i]];
    }
    assert [] + current[..|current|] == current;
    assert current + incoming[..0] == current;
    for i := 0 to |incoming|
      invariant events == Collect(current + incoming[..i])
    {
      CollectNext(current, incoming, i);
      events := events[incoming[i].id := incoming[i]];
    }
    assert incoming[..|incoming|] == incoming;
    merged := LastOnes(SortById(events), Limit(limit));
  }

  lemma CollectEmpty()
    ensures Collect([]) == map[]
  {}

  // ----- merging batch by batch

  lemma {:induction false} CollectConcat(first: seq<RunEvent>, second: seq<RunEvent>)
    ensures Collect(first + second) == Collect(first) + Collect(second)
    decreases |second|
  {
    hide Collect;
    if second == [] {
      assert first + second == first;
      CollectEmpty();
    } else {
      var n := |second| - 1;
      CollectConcat(first, second[..n]);
      CollectNext(first, second, n);
      CollectNext([], second, n);
      assert second[..n + 1] == second;
      assert [] + second == second && [] + second[..n] == second[..n];
    }
  }

  lemma {:induction false} CollectKeysById(events: seq<RunEvent>)
    ensures KeyedById(Collect(events))
  {
    if events != [] {
      CollectKeysById(events[..|events| - 1]);
    }
  }

  /** Collecting events looked up by distinct ids gives back what they were looked up in. */
  lemma {:induction false} CollectLookup(m: map<int, RunEvent>, ids: seq<int>)
    requires KeyedById(m)
    requires forall i | 0 <= i < |ids| :: ids[i] in m
    ensures Collect(Lookup(m, ids)) == map id | id in ids :: m[id]
    decreases |ids|
  {
    hide Collect;
    if ids == [] {
      CollectEmpty();
      assert Lookup(m, ids) == [];
    } else {
      var n := |ids| - 1;
      var rest := ids[..n];
      CollectLookup(m, rest);
      var events := Lookup(m, ids);
      assert events[..n] == Lookup(m, rest);
      CollectNext([], events, n);
      assert [] + events[..n + 1] == events && [] + events[..n] == events[..n];
      assert forall id :: id in ids <==> id in rest || id == ids[n] by { assert ids == rest + [ids[n]]; }
    }
  }

  /** The part of a map with the n greatest ids. */
  function Newest(m: map<int, RunEvent>, n: nat): (newest: map<int, RunEvent>)
    ensures newest.Keys == NewestIds(m.Keys, n)
  {
    map id | id in NewestIds(m.Keys, n) :: m[id]
  }

  lemma LastEventsAreNewest(m: map<int, RunEvent>, n: nat)
    ensures LastOnes(SortById(m), n) == SortById(Newest(m, n))
  {
    hide SortIds, NewestIds;
    LastIdsAreNewest(m.Keys, n);
    var ids, newest := SortIds(m.Keys), SortIds(NewestIds(m.Keys, n));
    assert |LastOnes(SortById(m), n)| == |newest|;
    assert forall i | 0 <= i < |newest| :: newest[i] == ids[|ids| - |newest| + i];
  }

  lemma CollectSorted(m: map<int, RunEvent>)
    requires KeyedById(m)
    ensures Collect(SortById(m)) == m
  {
    hide Collect, SortIds;
    CollectLookup(m, SortIds(m.Keys));
    SortIdsSorts(m.Keys);
    var all := map id | id in SortIds(m.Keys) :: m[id];
    assert forall id | id in SortIds(m.Keys) :: id in m.Keys;
    assert forall id | id in m.Keys :: id in all;
    assert all.Keys == m.Keys;
  }

  lemma NewestThenAdd(m: map<int, RunEvent>, more: map<int, RunEvent>, n: nat)
    ensures Newest(Newest(m, n) + more, n) == Newest(m + more, n)
  {
    hide NewestIds;
    CutThenAdd(m.Keys, more.Keys, n);
    assert (Newest(m, n) + more).Keys == NewestIds(m.Keys, n) + more.Keys;
    assert (m + more).Keys == m.Keys + more.Keys;
  }

  /** Merging two batches one after the other gives the same window as merging their concatenation. */
  lemma MergeBatches(current: seq<RunEvent>, first: seq<RunEvent>, second: seq<RunEvent>, limit: int)
    ensures Merge(Merge(current, first, limit), second, limit) == Merge(current, first + second, limit)
  {
    hide Collect, SortById, LastOnes, NewestIds, Newest;
    var n, m, more := Limit(limit), Collect(current + first), Collect(second);
    var kept := Newest(m, n);
    CollectKeysById(current + first);
    assert KeyedById(kept) by { NewestOf(m, n); }
    LastEventsAreNewest(m, n);
    CollectSorted(kept);
    CollectConcat(SortById(kept), second);
    LastEventsAreNewest(kept + more, n);
    NewestThenAdd(m, more, n);
    LastEventsAreNewest(m + more, n);
    CollectConcat(current + first, second);
    assert current + first + second == current + (first + second);
  }

  lemma NewestOf(m: map<int, RunEvent>, n: nat)
    ensures forall id | id in Newest(m, n) :: id in m && Newest(m, n)[id] == m[id]
  {}

  function MergeAll(current: seq<RunEvent>, batches: seq<seq<RunEvent>>, limit: int): seq<RunEvent>
    decreases |batches|
  {
    if batches == [] then current else MergeAll(Merge(current, batches[0], limit), batches[1..], limit)
  }

  /** The same for any number of batches: how the events arrive does not matter, only their order. */
  lemma {:induction false} MergeAllBatches(current: seq<RunEvent>, batches: seq<seq<RunEvent>>, limit: int)
    requires batches != []
    ensures MergeAll(current, batches, limit) == Merge(current, Flatten(batches), limit)
    decreases |batches|
  {
    hide Merge;
    if |batches| == 1 {
      assert Flatten(batches) == batches[0] + [] == batches[0];
    } else {
      MergeAllBatches(Merge(current, batches[0], limit), batches[1..], limit);
      MergeBatches(current, batches[0], Flatten(batches[1..]), limit);
    }
  }

  // ----- what the window holds

  ghost predicate SortedById(events: seq<RunEvent>) {
    forall i, j | 0 <= i < j < |events| :: events[i].id < events[j].id
  }

  /** The last event with an id that a batch holds is the one collected. */
  lemma {:induction false} LastVersionCounts(events: seq<RunEvent>, i: nat)
    requires i < |events|
    requires forall later | i < later < |events| :: events[later].id != events[i].id
    ensures events[i].id in Collect(events) && Collect(events)[events[i].id] == events[i]
    decreases |events|
  {
    if i < |events| - 1 {
      LastVersionCounts(events[..|events| - 1], i);
    }
  }

  lemma {:induction false} CollectedWasThere(events: seq<RunEvent>, id: int)
    requires id in Collect(events)
    ensures exists i :: 0 <= i < |events| && events[i] == Collect(events)[id] && events[i].id == id
    decreases |events|
  {
    var n := |events| - 1;
    if events[n].id != id {
      CollectedWasThere(events[..n], id);
      var i :| 0 <= i < n && events[..n][i] == Collect(events)[id] && events[..n][i].id == id;
      assert events[i] == Collect(events)[id];
    }
  }

  lemma MergedAt(all: map<int, RunEvent>, n: nat)
    requires KeyedById(all)
    ensures var merged, ids := LastOnes(SortById(all), n), SortIds(NewestIds(all.Keys, n));
            && |merged| == |ids|
            && forall i | 0 <= i < |ids| :: ids[i] in all && merged[i] == all[ids[i]] && merged[i].id == ids[i]
  {
    hide SortIds, NewestIds, LastOnes;
    LastEventsAreNewest(all, n);
  }

  /**
   * The window is sorted by id, is as long as the limit allows, and holds exactly the events, each in its last
   * version, of the ids that are not older than all the ids kept.
   */
  lemma MergeMeaning(current: seq<RunEvent>, incoming: seq<RunEvent>, limit: int)
    ensures var merged := Merge(current, incoming, limit);
            var all := Collect(current + incoming);
            && SortedById(merged)
            && |merged| == (if |all| <= Limit(limit) then |all| else Limit(limit))
            && (forall i | 0 <= i < |merged| :: merged[i].id in all && all[merged[i].id] == merged[i])
            && (forall id | id in all && all[id] !in merged :: forall i | 0 <= i < |merged| :: id < merged[i].id)
  {
    hide Collect, SortIds, NewestIds, SortById, LastOnes;
    var all, n := Collect(current + incoming), Limit(limit);
    CollectKeysById(current + incoming);
    MergedAt(all, n);
    SortIdsSorts(NewestIds(all.Keys, n));
    NewestIdsMeaning(all.Keys, n);
    KeptIsMerged(all, n);
  }

  lemma KeptIsMerged(all: map<int, RunEvent>, n: nat)
    requires KeyedById(all)
    ensures forall id | id in NewestIds(all.Keys, n) :: all[id] in LastOnes(SortById(all), n)
  {
    hide SortIds, NewestIds, SortById, LastOnes;
    MergedAt(all, n);
    SortIdsSorts(NewestIds(all.Keys, n));
    var merged, ids := LastOnes(SortById(all), n), SortIds(NewestIds(all.Keys, n));
    forall id | id in NewestIds(all.Keys, n)
      ensures all[id] in merged
    {
      var i :| 0 <= i < |ids| && ids[i] == id;
      assert merged[i] == all[id];
    }
  }
}
