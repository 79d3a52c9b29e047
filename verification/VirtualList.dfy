/** The virtual list of the chat: which items are rendered, and how the scroll position follows measured sizes. Lengths
    are real numbers; rounding is no part of this model. */
module VirtualList {
  import opened Wrappers

  type Key = nat

  // ----- the search

  ghost predicate NonDecreasing(offsets: seq<real>) {
    forall i, j | 0 <= i <= j < |offsets| :: offsets[i] <= offsets[j]
  }

  /** The index is the least one whose next offset exceeds the target; behind the last offset lies infinity. */
  ghost predicate IsLeastExceeding(offsets: seq<real>, target: real, index: nat) {
    && (index + 1 < |offsets| ==> offsets[index + 1] > target)
    && (index < |offsets| || (index == 0 && offsets == []))
    && forall i | 1 <= i <= index && i < |offsets| :: offsets[i] <= target
  }

  method FindOffsetIndex(offsets: seq<real>, target: real) returns (index: nat)
    requires NonDecreasing(offsets)
    ensures IsLeastExceeding(offsets, target, index)
  {
    var low, high := 0, if offsets == [] then 0 else |offsets| - 1;
    while low < high
      invariant 0 <= low <= high && (high < |offsets| || (high == 0 && offsets == []))
      invariant forall i | 1 <= i <= low && i < |offsets| :: offsets[i] <= target
      invariant high + 1 < |offsets| ==> offsets[high + 1] > target
    {
      var middle := (low + high) / 2;
      if offsets[middle + 1] <= target {
        low := middle + 1;
        continue;
      }
      high := middle;
    }
    return low;
  }

  // ----- the range

  function Min(a: int, b: int): int {
    if a <= b then a else b
  }

  function Max(a: int, b: int): int {
    if a >= b then a else b
  }

  /** The item shares a point with the viewport, or touches its lower edge. */
  predicate Meets(offsets: seq<real>, scrollTop: real, viewportHeight: real, i: nat)
    requires i + 1 < |offsets|
  {
    offsets[i + 1] > scrollTop && offsets[i] <= scrollTop + viewportHeight
  }

  method ResolveDynamicBuddyVirtualRange(itemCount: nat, offsets: seq<real>, overscan: int, scrollTop: real,
                                         viewportHeight: real)
    returns (start: nat, end: nat)
    requires NonDecreasing(offsets)
    ensures itemCount == 0 ==> start == end == 0
    ensures itemCount > 0 ==> 0 <= start < end <= itemCount
    ensures |offsets| == itemCount + 1 && overscan >= 0 ==>
              IsRange(offsets, overscan, scrollTop, viewportHeight, start, end)
  {
    if itemCount == 0 {
      return 0, 0;
    }
    var viewportEnd := scrollTop + viewportHeight;
    var first := FindOffsetIndex(offsets, scrollTop);
    var last := FindOffsetIndex(offsets, viewportEnd);
    start := Min(itemCount - 1, Max(0, first - overscan));
    end := Min(itemCount, Max(start + 1, last + overscan + 1));
    end := Max(end, start + 1);
    if |offsets| == itemCount + 1 && overscan >= 0 {
      RangeIsRight(offsets, overscan, scrollTop, viewportHeight, first, last, start, end);
    }
  }

  /** The item meets the viewport, or is at most overscan items away from one that does. */
  predicate Near(offsets: seq<real>, overscan: nat, scrollTop: real, viewportHeight: real, i: nat) {
    exists j | 0 <= j < |offsets| - 1 ::
      Meets(offsets, scrollTop, viewportHeight, j) && j - overscan <= i <= j + overscan
  }

  predicate InRange(start: nat, end: nat, i: nat) {
    start <= i < end
  }

  /** When some item meets the viewport, the range holds these items and their neighbours, and no others. */
  ghost predicate IsRange(offsets: seq<real>, overscan: nat, scrollTop: real, viewportHeight: real, start: nat,
                          end: nat)
  {
    (exists m :: 0 <= m < |offsets| - 1 && Meets(offsets, scrollTop, viewportHeight, m)) ==>
      forall i | 0 <= i < |offsets| - 1 :: InRange(start, end, i) <==>
        Near(offsets, overscan, scrollTop, viewportHeight, i)
  }

  lemma MeetingItems(offsets: seq<real>, scrollTop: real, viewportHeight: real, first: nat, last: nat, i: nat)
    requires NonDecreasing(offsets) && i + 1 < |offsets|
    requires IsLeastExceeding(offsets, scrollTop, first) && IsLeastExceeding(offsets, scrollTop + viewportHeight, last)
    ensures Meets(offsets, scrollTop, viewportHeight, i) ==> first <= i <= last
    ensures first <= i <= last && offsets[0] <= scrollTop + viewportHeight ==>
              Meets(offsets, scrollTop, viewportHeight, i)
  {
    if i > last {
      assert offsets[last + 1] <= offsets[i];
    }
    if i < first {
      assert offsets[i + 1] <= scrollTop;
    }
    if first <= i {
      assert offsets[first + 1] <= offsets[i + 1];
    }
  }

  lemma RangeIsRight(offsets: seq<real>, overscan: nat, scrollTop: real, viewportHeight: real, first: nat, last: nat,
                     start: nat, end: nat)
    requires NonDecreasing(offsets) && |offsets| > 1
    requires IsLeastExceeding(offsets, scrollTop, first) && IsLeastExceeding(offsets, scrollTop + viewportHeight, last)
    requires start == Min(|offsets| - 2, Max(0, first - overscan))
    requires end == Max(Min(|offsets| - 1, Max(start + 1, last + overscan + 1)), start + 1)
    ensures IsRange(offsets, overscan, scrollTop, viewportHeight, start, end)
  {
    hide Meets, IsLeastExceeding;
    if m :| 0 <= m < |offsets| - 1 && Meets(offsets, scrollTop, viewportHeight, m) {
      MeetingItems(offsets, scrollTop, viewportHeight, first, last, m);
      TopIsAbove(offsets, scrollTop, viewportHeight, m);
      forall i | 0 <= i < |offsets| - 1
        ensures InRange(start, end, i) <==> Near(offsets, overscan, scrollTop, viewportHeight, i)
      {
        NearIsInRange(offsets, overscan, scrollTop, viewportHeight, first, last, i);
        assert first - overscan <= i <= last + overscan <==> InRange(start, end, i);
      }
    }
  }

  lemma TopIsAbove(offsets: seq<real>, scrollTop: real, viewportHeight: real, i: nat)
    requires NonDecreasing(offsets) && i + 1 < |offsets| && Meets(offsets, scrollTop, viewportHeight, i)
    ensures offsets[0] <= scrollTop + viewportHeight
  {
  }

  lemma NearIsInRange(offsets: seq<real>, overscan: nat, scrollTop: real, viewportHeight: real, first: nat, last: nat,
                      i: nat)
    requires NonDecreasing(offsets) && i + 1 < |offsets| && offsets[0] <= scrollTop + viewportHeight
    requires IsLeastExceeding(offsets, scrollTop, first) && IsLeastExceeding(offsets, scrollTop + viewportHeight, last)
    requires first <= last && first + 1 < |offsets|
    ensures Near(offsets, overscan, scrollTop, viewportHeight, i) <==> first - overscan <= i <= last + overscan
  {
    hide Meets, IsLeastExceeding;
    if Near(offsets, overscan, scrollTop, viewportHeight, i) {
      var j :| 0 <= j < |offsets| - 1 && Meets(offsets, scrollTop, viewportHeight, j)
               && j - overscan <= i <= j + overscan;
      MeetingItems(offsets, scrollTop, viewportHeight, first, last, j);
    }
    if first - overscan <= i <= last + overscan {
      var j := if i < first then first else if i <= last then i else last;
      MeetingItems(offsets, scrollTop, viewportHeight, first, last, j);
      assert Meets(offsets, scrollTop, viewportHeight, j);
    }
  }

  // ----- sizes and offsets

  function SizeOf(sizes: map<Key, real>, estimate: real, key: Key): real {
    if key in sizes then sizes[key] else estimate
  }

  /** The offset behind the first n items. */
  function Offset(keys: seq<Key>, sizes: map<Key, real>, estimate: real, n: nat): real
    requires n <= |keys|
  {
    if n == 0 then 0.0 else Offset(keys, sizes, estimate, n - 1) + SizeOf(sizes, estimate, keys[n - 1])
  }

  method ComputeOffsets(keys: seq<Key>, sizes: map<Key, real>, estimate: real) returns (offsets: seq<real>)
    requires estimate >= 0.0 && forall key | key in sizes :: sizes[key] > 0.0
    ensures |offsets| == |keys| + 1
    ensures forall n | 0 <= n <= |keys| :: offsets[n] == Offset(keys, sizes, estimate, n)
    ensures NonDecreasing(offsets)
  {
    offsets := [0.0];
    var offset := 0.0;
    for i := 0 to |keys|
      invariant |offsets| == i + 1 && offset == offsets[i]
      invariant forall n | 0 <= n <= i :: offsets[n] == Offset(keys, sizes, estimate, n)
    {
      offset := offset + SizeOf(sizes, estimate, keys[i]);
      offsets := offsets + [offset];
    }
    forall m, n | 0 <= m <= n < |offsets|
      ensures offsets[m] <= offsets[n]
    {
      OffsetsGrow(keys, sizes, estimate, m, n);
    }
  }

  lemma {:induction false} OffsetsGrow(keys: seq<Key>, sizes: map<Key, real>, estimate: real, m: nat, n: nat)
    requires estimate >= 0.0 && (forall key | key in sizes :: sizes[key] > 0.0) && m <= n <= |keys|
    ensures Offset(keys, sizes, estimate, m) <= Offset(keys, sizes, estimate, n)
  {
    if m < n {
      OffsetsGrow(keys, sizes, estimate, m, n - 1);
    }
  }

  predicate Distinct(keys: seq<Key>) {
    forall i, j | 0 <= i < j < |keys| :: keys[i] != keys[j]
  }

  /** Another size for the item at index moves what follows it, and nothing else. */
  lemma {:induction false} ResizeMoves(keys: seq<Key>, sizes: map<Key, real>, estimate: real, index: nat, size: real,
                                       n: nat)
    requires Distinct(keys) && index < |keys| && n <= |keys|
    ensures Offset(keys, sizes[keys[index] := size], estimate, n) ==
            Offset(keys, sizes, estimate, n) + if n <= index then 0.0 else size - SizeOf(sizes, estimate, keys[index])
  {
    if n > 0 {
      ResizeMoves(keys, sizes, estimate, index, size, n - 1);
    }
  }

  // ----- measuring

  /** The scroll container as the browser shows it; assigning its scroll position clamps it. */
  datatype Container = Container(scrollTop: real, scrollHeight: real, clientHeight: real) {
    function MaxScrollTop(): real {
      if scrollHeight > clientHeight then scrollHeight - clientHeight else 0.0
    }

    function ScrollTo(target: real): Container {
      this.(scrollTop := if target < 0.0 then 0.0 else if target > MaxScrollTop() then MaxScrollTop() else target)
    }

    /** How far one could still scroll down. */
    function Distance(): real {
      scrollHeight - scrollTop - clientHeight
    }
  }

  datatype ListState = ListState(
    keys: seq<Key>,
    sizeByKey: map<Key, real>,
    container: Option<Container>,
    scrollTop: real,
    stickToBottom: bool,
    pendingScrollBottom: bool
  )

  datatype Options = Options(estimateSize: real, bottomThreshold: real)

  predicate IsNearScrollBottom(container: Option<Container>, threshold: real) {
    container.Some? ==> container.value.Distance() <= threshold
  }

  /** The place of the last item with the key, as the index map has it. */
  function IndexOf(keys: seq<Key>, key: Key): Option<nat> {
    if keys == [] then None
    else if keys[|keys| - 1] == key then Some(|keys| - 1)
    else IndexOf(keys[..|keys| - 1], key)
  }

  function ItemTop(o: Options, s: ListState, key: Key): real {
    var index := IndexOf(s.keys, key);
    if index.Some? && index.value <= |s.keys| then Offset(s.keys, s.sizeByKey, o.estimateSize, index.value) else 0.0
  }

  /** The viewport is kept still when an item above it changes, unless it is near the bottom. */
  predicate Anchors(o: Options, s: ListState, key: Key) {
    && !IsNearScrollBottom(s.container, o.bottomThreshold)
    && ItemTop(o, s, key) + SizeOf(s.sizeByKey, o.estimateSize, key) <= s.scrollTop
  }

  /** measureItem as a function; nextSize is the measured height rounded up. */
  function Measure(o: Options, s: ListState, key: Key, nextSize: int): ListState {
    var size := nextSize as real;
    var previous := SizeOf(s.sizeByKey, o.estimateSize, key);
    if nextSize <= 0 || (previous == size && key in s.sizeByKey) then s
    else
      var measured := s.(sizeByKey := s.sizeByKey[key := size]);
      if Anchors(o, s, key) && size != previous then
        if s.container.None? then measured
        else
          var moved := s.container.value.ScrollTo(s.container.value.scrollTop + (size - previous));
          measured.(container := Some(moved), scrollTop := moved.scrollTop)
      else if IsNearScrollBottom(s.container, o.bottomThreshold) || s.stickToBottom then
        measured.(pendingScrollBottom := true)
      else measured
  }

  /** Where the item at index i begins on the screen. */
  function ScreenPosition(o: Options, s: ListState, i: nat): real
    requires i <= |s.keys|
  {
    Offset(s.keys, s.sizeByKey, o.estimateSize, i) - s.scrollTop
  }

  /** The scroll position on record is the container's. */
  ghost predicate InSync(s: ListState) {
    s.container.Some? ==> s.scrollTop == s.container.value.scrollTop
  }

  lemma {:induction false} IndexOfDistinct(keys: seq<Key>, index: nat)
    requires Distinct(keys) && index < |keys|
    ensures IndexOf(keys, keys[index]) == Some(index)
    decreases |keys|
  {
    if index < |keys| - 1 {
      IndexOfDistinct(keys[..|keys| - 1], index);
    }
  }

  /** The item at index ends above the viewport, and the viewport is not near the bottom of the container. */
  predicate IsAbove(o: Options, s: ListState, index: nat)
    requires index < |s.keys|
  {
    && s.container.Some?
    && Offset(s.keys, s.sizeByKey, o.estimateSize, index + 1) <= s.scrollTop
    && s.container.value.Distance() > o.bottomThreshold
  }

  /** The measured height is news for the item: it has none yet, or another one. */
  predicate IsNews(s: ListState, key: Key, nextSize: int) {
    nextSize > 0 && !(key in s.sizeByKey && s.sizeByKey[key] == nextSize as real)
  }

  lemma AnchorsExactly(o: Options, s: ListState, index: nat)
    requires Distinct(s.keys) && index < |s.keys|
    ensures Anchors(o, s, s.keys[index]) <==> IsAbove(o, s, index)
  {
    IndexOfDistinct(s.keys, index);
  }

  /** A measurement records the height of its item, and no other. */
  lemma MeasuredSizeIsRecorded(o: Options, s: ListState, key: Key, nextSize: int, other: Key)
    ensures var s' := Measure(o, s, key, nextSize);
            && s'.keys == s.keys && s'.stickToBottom == s.stickToBottom
            && SizeOf(s'.sizeByKey, o.estimateSize, other) ==
               if other == key && nextSize > 0 then nextSize as real else SizeOf(s.sizeByKey, o.estimateSize, other)
  {
  }

  /** A size measured for an item that ends above the viewport, away from the bottom, leaves every later item where it
      is on the screen, exactly when the container can scroll down by the difference. */
  lemma AnchoringKeepsPositions(o: Options, s: ListState, index: nat, nextSize: int, i: nat)
    requires o.estimateSize >= 0.0 && forall key | key in s.sizeByKey :: s.sizeByKey[key] > 0.0
    requires Distinct(s.keys) && index < i <= |s.keys| && InSync(s) && nextSize > 0
    requires IsAbove(o, s, index)
    ensures var s' := Measure(o, s, s.keys[index], nextSize);
            var delta := nextSize as real - SizeOf(s.sizeByKey, o.estimateSize, s.keys[index]);
            ScreenPosition(o, s', i) == ScreenPosition(o, s, i) <==>
              delta == 0.0 || delta <= s.container.value.MaxScrollTop() - s.scrollTop
  {
    AnchorsExactly(o, s, index);
    OffsetsGrow(s.keys, s.sizeByKey, o.estimateSize, 0, index);
    ResizeMoves(s.keys, s.sizeByKey, o.estimateSize, index, nextSize as real, i);
  }

  /** Growing by no more than the bottom threshold always leaves them. */
  lemma SmallGrowthIsAnchored(o: Options, s: ListState, index: nat, nextSize: int, i: nat)
    requires o.estimateSize >= 0.0 && forall key | key in s.sizeByKey :: s.sizeByKey[key] > 0.0
    requires Distinct(s.keys) && index < i <= |s.keys| && InSync(s) && nextSize > 0
    requires IsAbove(o, s, index)
    requires nextSize as real - SizeOf(s.sizeByKey, o.estimateSize, s.keys[index]) <= o.bottomThreshold
    ensures ScreenPosition(o, Measure(o, s, s.keys[index], nextSize), i) == ScreenPosition(o, s, i)
  {
    AnchoringKeepsPositions(o, s, index, nextSize, i);
  }

  /** An item above the viewport that grows by 100, where the container can be scrolled down by only 50: what follows it
      is moved by the rest. */
  lemma LargeGrowthMoves()
    ensures var o := Options(100.0, 10.0);
            var s := ListState([0, 1], map[], Some(Container(100.0, 200.0, 50.0)), 100.0, false, false);
            && Distinct(s.keys) && InSync(s) && IsAbove(o, s, 0)
            && ScreenPosition(o, s, 1) == 0.0 && ScreenPosition(o, Measure(o, s, 0, 200), 1) == 50.0
  {
    var o := Options(100.0, 10.0);
    var s := ListState([0, 1], map[], Some(Container(100.0, 200.0, 50.0)), 100.0, false, false);
    AnchorsExactly(o, s, 0);
    assert Offset(s.keys, s.sizeByKey, 100.0, 1) == Offset(s.keys, s.sizeByKey, 100.0, 0) + 100.0;
    ResizeMoves(s.keys, s.sizeByKey, 100.0, 0, 200.0, 1);
  }

  /** Measuring an item that reaches into the viewport or lies below it, or any item near the bottom, scrolls nothing:
      only what follows the item moves, by the difference. */
  lemma UnanchoredKeepsEarlier(o: Options, s: ListState, index: nat, nextSize: int, i: nat)
    requires Distinct(s.keys) && index < |s.keys| && i <= |s.keys| && !IsAbove(o, s, index)
    ensures var s' := Measure(o, s, s.keys[index], nextSize);
            && s'.container == s.container && s'.scrollTop == s.scrollTop
            && ScreenPosition(o, s', i) == ScreenPosition(o, s, i) +
               if i <= index || nextSize <= 0 then 0.0
               else nextSize as real - SizeOf(s.sizeByKey, o.estimateSize, s.keys[index])
  {
    AnchorsExactly(o, s, index);
    ResizeMoves(s.keys, s.sizeByKey, o.estimateSize, index, nextSize as real, i);
  }

  /** A scroll to the bottom is asked for exactly if the height is news, the item was not anchored, and the list was
      near the bottom or sticks to it. */
  lemma BottomIsAskedForExactly(o: Options, s: ListState, index: nat, nextSize: int)
    requires Distinct(s.keys) && index < |s.keys|
    ensures var key := s.keys[index];
            Measure(o, s, key, nextSize).pendingScrollBottom <==>
              || s.pendingScrollBottom
              || (&& IsNews(s, key, nextSize)
                  && !(IsAbove(o, s, index) && nextSize as real != SizeOf(s.sizeByKey, o.estimateSize, key))
                  && (s.stickToBottom || s.container.None? || s.container.value.Distance() <= o.bottomThreshold))
  {
    AnchorsExactly(o, s, index);
  }

  /** A late measurement of an item that is not in the list any more moves no offset, but still scrolls: all items jump
      by as much as the container can be scrolled, exactly if the old height fits above the viewport, away from the
      bottom. */
  lemma UnlistedItemScrolls(o: Options, s: ListState, key: Key, nextSize: int, i: nat)
    requires o.estimateSize >= 0.0 && key !in s.keys && i <= |s.keys| && InSync(s)
    ensures var s' := Measure(o, s, key, nextSize);
            var previous := SizeOf(s.sizeByKey, o.estimateSize, key);
            ScreenPosition(o, s', i) == ScreenPosition(o, s, i) -
              if && s.container.Some? && s.container.value.Distance() > o.bottomThreshold
                 && IsNews(s, key, nextSize) && previous <= s.scrollTop && nextSize as real != previous
              then s.container.value.ScrollTo(s.scrollTop + (nextSize as real - previous)).scrollTop - s.scrollTop
              else 0.0
  {
    NoIndex(s.keys, key);
    UnlistedMovesNothing(s.keys, s.sizeByKey, o.estimateSize, key, nextSize as real, i);
  }

  lemma {:induction false} NoIndex(keys: seq<Key>, key: Key)
    requires key !in keys
    ensures IndexOf(keys, key) == None
    decreases |keys|
  {
    if keys != [] {
      NoIndex(keys[..|keys| - 1], key);
    }
  }

  lemma {:induction false} UnlistedMovesNothing(keys: seq<Key>, sizes: map<Key, real>, estimate: real, key: Key,
                                                size: real, n: nat)
    requires key !in keys && n <= |keys|
    ensures Offset(keys, sizes[key := size], estimate, n) == Offset(keys, sizes, estimate, n)
  {
    if n > 0 {
      UnlistedMovesNothing(keys, sizes, estimate, key, size, n - 1);
    }
  }

  // ----- the object

  class DynamicList {
    const options: Options
    var keys: seq<Key>
    var sizeByKey: map<Key, real>
    var container: Option<Container>
    var scrollTop: real
    var shouldStickToBottom: bool
    var pendingScrollBottom: bool

    ghost function State(): ListState
      reads this
    {
      ListState(keys, sizeByKey, container, scrollTop, shouldStickToBottom, pendingScrollBottom)
    }

    constructor (options: Options, keys: seq<Key>)
      ensures State() == ListState(keys, map[], None, 0.0, true, false) && this.options == options
    {
      this.options := options;
      this.keys := keys;
      sizeByKey, container, scrollTop := map[], None, 0.0;
      shouldStickToBottom, pendingScrollBottom := true, false;
    }

    method AdjustScrollTop(delta: real)
      modifies this`container, this`scrollTop
      ensures old(container).None? ==> container == old(container) && scrollTop == old(scrollTop)
      ensures old(container).Some? ==>
                && container == Some(old(container).value.ScrollTo(old(container).value.scrollTop + delta))
                && scrollTop == container.value.scrollTop
    {
      if container.None? {
        return;
      }
      container := Some(container.value.ScrollTo(container.value.scrollTop + delta));
      scrollTop := container.value.scrollTop;
    }

    method FindIndex(key: Key) returns (index: Option<nat>)
      ensures index == IndexOf(keys, key)
      ensures index.Some? ==> index.value < |keys|
    {
      index := None;
      for i := 0 to |keys|
        invariant index == IndexOf(keys[..i], key)
        invariant index.Some? ==> index.value < i
      {
        assert keys[..i + 1][..i] == keys[..i];
        if keys[i] == key {
          index := Some(i);
        }
      }
      assert keys[..|keys|] == keys;
    }

    method MeasureItem(key: Key, nextSize: int)
      requires options.estimateSize >= 0.0 && forall k | k in sizeByKey :: sizeByKey[k] > 0.0
      modifies this
      ensures State() == Measure(options, old(State()), key, nextSize)
    {
      if nextSize <= 0 {
        return;
      }
      var size := nextSize as real;
      var previousSize := SizeOf(sizeByKey, options.estimateSize, key);
      if previousSize == size && key in sizeByKey {
        return;
      }
      var index := FindIndex(key);
      var offsets := ComputeOffsets(keys, sizeByKey, options.estimateSize);
      var itemTop := if index.Some? then offsets[index.value] else 0.0;
      var wasNearBottom := IsNearScrollBottom(container, options.bottomThreshold);
      var shouldAnchorViewport := !wasNearBottom && itemTop + previousSize <= scrollTop;
      var delta := size - previousSize;
      sizeByKey := sizeByKey[key := size];
      if shouldAnchorViewport && delta != 0.0 {
        AdjustScrollTop(delta);
        return;
      }
      if wasNearBottom || shouldStickToBottom {
        pendingScrollBottom := true;
      }
    }
  }
}
