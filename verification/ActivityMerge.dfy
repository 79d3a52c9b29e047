/** Adjacent tool activities of a run with one label are shown as one row. */
module ActivityMerge {
  import opened Wrappers
  import opened Sequences

  datatype Kind = Approval | Diff | Notice | Plan | Thinking | Tool

  datatype Status = Running | Completed | Failed

  /** A row of a run's process: an activity, or a piece of the assistant's streamed text. A missing item count means
      one item. */
  datatype ProcessRow =
    | Activity(id: string, key: string, kind: Kind, labelText: string, status: Status, itemCount: Option<nat>)
    | StreamMessage(id: string)

  datatype OrderedRow = OrderedRow(order: int, row: ProcessRow)

  // ----- one group

  predicate Mergeable(first: ProcessRow, second: ProcessRow) {
    && first.Activity? && second.Activity?
    && first.kind == Tool && second.kind == first.kind && second.labelText == first.labelText
  }

  function Items(row: ProcessRow): nat {
    if row.Activity? then (if row.itemCount.Some? then row.itemCount.value else 1) else 0
  }

  /** The number of activities that rows stand for. */
  function TotalItems(rows: seq<OrderedRow>): nat {
    if rows == [] then 0 else Items(rows[0].row) + TotalItems(rows[1..])
  }

  predicate SomeStatus(rows: seq<OrderedRow>, status: Status) {
    exists i | 0 <= i < |rows| :: rows[i].row.Activity? && rows[i].row.status == status
  }

  function MergedStatus(rows: seq<OrderedRow>): Status {
    if SomeStatus(rows, Running) then Running
    else if SomeStatus(rows, Failed) then Failed
    else Completed
  }

  function MergeGroup(group: seq<OrderedRow>): OrderedRow
    requires group != []
  {
    var first := group[0];
    if |group| == 1 || !first.row.Activity? then first
    else
      OrderedRow(first.order, first.row.(
        id := first.row.id + "-merged",
        key := first.row.key + "-merged",
        itemCount := Some(TotalItems(group)),
        status := MergedStatus(group)))
  }

  // ----- the groups of a list of rows

  /** How many of the rows go with the given first one. */
  function GroupTail(first: ProcessRow, rows: seq<OrderedRow>): (n: nat)
    ensures n <= |rows|
  {
    if rows != [] && Mergeable(first, rows[0].row) then 1 + GroupTail(first, rows[1..]) else 0
  }

  function Groups(rows: seq<OrderedRow>): seq<seq<OrderedRow>> {
    if rows == [] then []
    else
      var n := 1 + GroupTail(rows[0].row, rows[1..]);
      [rows[..n]] + Groups(rows[n..])
  }

  function MergeGroups(groups: seq<seq<OrderedRow>>): (merged: seq<OrderedRow>)
    requires forall k | 0 <= k < |groups| :: groups[k] != []
    ensures |merged| == |groups|
    ensures forall k | 0 <= k < |groups| :: merged[k] == MergeGroup(groups[k])
  {
    seq(|groups|, k requires 0 <= k < |groups| => MergeGroup(groups[k]))
  }

  /** mergeAdjacentActivityRows as a function. */
  function Merge(rows: seq<OrderedRow>): seq<OrderedRow> {
    if rows == [] then []
    else
      var n := 1 + GroupTail(rows[0].row, rows[1..]);
      [MergeGroup(rows[..n])] + Merge(rows[n..])
  }

  method MergeAdjacentActivityRows(rows: seq<OrderedRow>) returns (merged: seq<OrderedRow>)
    ensures merged == Merge(rows)
  {
    hide MergeGroup, Mergeable, GroupTail, Merge;
    merged := [];
    var index := 0;
    assert rows[0..] == rows;
    while index < |rows|
      invariant 0 <= index <= |rows|
      invariant merged + Merge(rows[index..]) == Merge(rows)
    {
      var current := rows[index];
      var start := index;
      MergeHead(rows, index);
      var group := [current];
      index := index + 1;
      if !current.row.Activity? {
        AloneIfMessage(current.row, rows[index..]);
        merged := merged + [current];
        SingleGroup(current);
        assert rows[start..index] == [current];
      } else {
        while index < |rows| && Mergeable(current.row, rows[index].row)
          invariant start < index <= |rows| && group == rows[start..index]
          invariant index - start - 1 + GroupTail(current.row, rows[index..]) ==
                      GroupTail(current.row, rows[start + 1..])
        {
          TailStep(current.row, rows, index);
          group := group + [rows[index]];
          index := index + 1;
        }
        TailEnds(current.row, rows, index);
        merged := merged + [MergeGroup(group)];
      }
    }
    MergeNothing();
    assert rows[index..] == [] && merged + [] == merged;
  }

  lemma MergeNothing()
    ensures Merge([]) == []
  {
  }

  lemma {:induction false} MergeHead(rows: seq<OrderedRow>, i: nat)
    requires i < |rows|
    ensures var n := 1 + GroupTail(rows[i].row, rows[i + 1..]);
            i + n <= |rows| && Merge(rows[i..]) == [MergeGroup(rows[i..i + n])] + Merge(rows[i + n..])
  {
    hide MergeGroup, GroupTail, Mergeable;
    var n := 1 + GroupTail(rows[i].row, rows[i + 1..]);
    var rest := rows[i..];
    assert rest[1..] == rows[i + 1..] && rest[..n] == rows[i..i + n] && rest[n..] == rows[i + n..];
  }

  lemma AloneIfMessage(first: ProcessRow, rows: seq<OrderedRow>)
    requires !first.Activity?
    ensures GroupTail(first, rows) == 0
  {
  }

  lemma SingleGroup(row: OrderedRow)
    ensures MergeGroup([row]) == row
  {
  }

  lemma TailStep(first: ProcessRow, rows: seq<OrderedRow>, i: nat)
    requires i < |rows| && Mergeable(first, rows[i].row)
    ensures GroupTail(first, rows[i..]) == 1 + GroupTail(first, rows[i + 1..])
  {
    assert rows[i..][1..] == rows[i + 1..];
  }

  lemma TailEnds(first: ProcessRow, rows: seq<OrderedRow>, i: nat)
    requires i <= |rows| && (i < |rows| ==> !Mergeable(first, rows[i].row))
    ensures GroupTail(first, rows[i..]) == 0
  {
  }

  // ----- the groups are the maximal runs of mergeable rows

  ghost predicate Uniform(group: seq<OrderedRow>) {
    group != [] && forall i | 1 <= i < |group| :: Mergeable(group[0].row, group[i].row)
  }

  ghost predicate MaximalRuns(groups: seq<seq<OrderedRow>>) {
    && (forall k | 0 <= k < |groups| :: Uniform(groups[k]))
    && (forall k | 0 <= k < |groups| - 1 :: !Mergeable(groups[k][0].row, groups[k + 1][0].row))
  }

  lemma {:induction false} GroupTailIs(first: ProcessRow, rows: seq<OrderedRow>)
    ensures var n := GroupTail(first, rows);
            && (forall i | 0 <= i < n :: Mergeable(first, rows[i].row))
            && (n < |rows| ==> !Mergeable(first, rows[n].row))
  {
    if rows != [] && Mergeable(first, rows[0].row) {
      GroupTailIs(first, rows[1..]);
    }
  }

  lemma {:induction false} GroupsHead(rows: seq<OrderedRow>)
    requires rows != []
    ensures var n := 1 + GroupTail(rows[0].row, rows[1..]);
            n <= |rows| && Groups(rows) == [rows[..n]] + Groups(rows[n..])
  {
    hide GroupTail, Mergeable;
  }

  lemma HeadIsMaximal(rows: seq<OrderedRow>)
    requires rows != []
    ensures var n := 1 + GroupTail(rows[0].row, rows[1..]);
            n <= |rows| && Uniform(rows[..n]) && (n < |rows| ==> !Mergeable(rows[0].row, rows[n].row))
  {
    hide GroupTail, Mergeable;
    var n := 1 + GroupTail(rows[0].row, rows[1..]);
    GroupTailIs(rows[0].row, rows[1..]);
    assert forall i | 1 <= i < n :: rows[..n][i] == rows[1..][i - 1];
    assert n < |rows| ==> rows[1..][n - 1] == rows[n];
  }

  lemma RunsGrow(group: seq<OrderedRow>, rest: seq<seq<OrderedRow>>)
    requires Uniform(group) && MaximalRuns(rest)
    requires rest != [] ==> !Mergeable(group[0].row, rest[0][0].row)
    ensures MaximalRuns([group] + rest)
  {
    hide Mergeable;
    var groups: seq<seq<OrderedRow>> := [group] + rest;
    forall k | 0 <= k < |groups| - 1
      ensures !Mergeable(groups[k][0].row, groups[k + 1][0].row)
    {
      if k > 0 {
        assert groups[k] == rest[k - 1] && groups[k + 1] == rest[k];
      }
    }
  }

  /** The groups cut the rows into runs of mergeable rows that cannot be made longer. */
  lemma {:induction false} GroupsAreMaximal(rows: seq<OrderedRow>)
    ensures Flatten(Groups(rows)) == rows
    ensures MaximalRuns(Groups(rows))
    ensures rows != [] ==> Groups(rows) != [] && Groups(rows)[0] != [] && Groups(rows)[0][0] == rows[0]
    decreases |rows|
  {
    hide Mergeable, GroupTail, Groups, MaximalRuns, Uniform, Flatten;
    NoGroups();
    if rows != [] {
      var n := 1 + GroupTail(rows[0].row, rows[1..]);
      HeadIsMaximal(rows);
      GroupsHead(rows);
      var head, left := rows[..n], rows[n..];
      var rest := Groups(left);
      GroupsAreMaximal(left);
      if left != [] {
        assert rest[0][0] == rows[n];
      }
      RunsGrow(head, rest);
      FlattenStep(head, rest);
      assert head + left == rows;
    }
  }

  lemma NoGroups()
    ensures Groups([]) == [] && Flatten<OrderedRow>([]) == [] && MaximalRuns([])
  {
  }

  /** Merging is merging the maximal runs one by one. */
  lemma {:induction false} MergeIsByGroups(rows: seq<OrderedRow>)
    ensures forall k | 0 <= k < |Groups(rows)| :: Groups(rows)[k] != []
    ensures Merge(rows) == MergeGroups(Groups(rows))
    decreases |rows|
  {
    hide MergeGroup;
    if rows != [] {
      var n := 1 + GroupTail(rows[0].row, rows[1..]);
      MergeIsByGroups(rows[n..]);
    }
  }

  // ----- what merging keeps

  lemma {:induction false} TotalItemsConcat(first: seq<OrderedRow>, second: seq<OrderedRow>)
    ensures TotalItems(first + second) == TotalItems(first) + TotalItems(second)
  {
    if first == [] {
      assert first + second == second;
    } else {
      assert (first + second)[1..] == first[1..] + second;
      TotalItemsConcat(first[1..], second);
    }
  }

  /** No activity is lost or counted twice. */
  lemma {:induction false} MergeConservesItems(rows: seq<OrderedRow>)
    ensures TotalItems(Merge(rows)) == TotalItems(rows)
    decreases |rows|
  {
    if rows != [] {
      var n := 1 + GroupTail(rows[0].row, rows[1..]);
      MergeConservesItems(rows[n..]);
      TotalItemsConcat(rows[..n], rows[n..]);
      assert rows[..n] + rows[n..] == rows;
      GroupItems(rows[..n]);
      assert Merge(rows)[1..] == Merge(rows[n..]);
    }
  }

  lemma GroupItems(group: seq<OrderedRow>)
    requires group != [] && (|group| > 1 ==> group[0].row.Activity?)
    ensures Items(MergeGroup(group).row) == TotalItems(group)
  {
  }

  function OwnMessage(row: OrderedRow): seq<OrderedRow> {
    if row.row.StreamMessage? then [row] else []
  }

  function Messages(rows: seq<OrderedRow>): seq<OrderedRow> {
    if rows == [] then [] else OwnMessage(rows[0]) + Messages(rows[1..])
  }

  lemma {:induction false} MessagesConcat(first: seq<OrderedRow>, second: seq<OrderedRow>)
    ensures Messages(first + second) == Messages(first) + Messages(second)
  {
    if first == [] {
      assert first + second == second;
    } else {
      hide OwnMessage;
      assert (first + second)[1..] == first[1..] + second;
      MessagesConcat(first[1..], second);
    }
  }

  lemma {:induction false} MergeStep(rows: seq<OrderedRow>)
    requires rows != []
    ensures var n := 1 + GroupTail(rows[0].row, rows[1..]);
            n <= |rows| && Merge(rows) == [MergeGroup(rows[..n])] + Merge(rows[n..])
  {
    hide MergeGroup, GroupTail, Mergeable;
  }

  /** The first group and the row it is merged to have the same messages. */
  lemma MessagesOfHead(rows: seq<OrderedRow>)
    requires rows != []
    ensures var n := 1 + GroupTail(rows[0].row, rows[1..]);
            Messages([MergeGroup(rows[..n])]) == Messages(rows[..n])
  {
    hide GroupTail;
    var n := 1 + GroupTail(rows[0].row, rows[1..]);
    GroupTailIs(rows[0].row, rows[1..]);
    if rows[0].row.StreamMessage? {
      AloneIfMessage(rows[0].row, rows[1..]);
      assert rows[..n] == [rows[0]];
      SingleGroup(rows[0]);
    } else {
      assert forall i | 1 <= i < n :: rows[..n][i] == rows[1..][i - 1];
      NoMessages(rows[..n]);
      assert MergeGroup(rows[..n]).row.Activity?;
    }
  }

  lemma {:induction false} NoMessages(rows: seq<OrderedRow>)
    requires forall i | 0 <= i < |rows| :: rows[i].row.Activity?
    ensures Messages(rows) == []
  {
    if rows != [] {
      NoMessages(rows[1..]);
    }
  }

  /** The streamed messages are kept as they are, in their order. */
  lemma {:induction false} MergeKeepsMessages(rows: seq<OrderedRow>)
    ensures Messages(Merge(rows)) == Messages(rows)
    decreases |rows|
  {
    hide MergeGroup, GroupTail, Merge, Messages, Mergeable;
    MergeNothing();
    if rows != [] {
      var n := 1 + GroupTail(rows[0].row, rows[1..]);
      MergeStep(rows);
      var head, left := rows[..n], rows[n..];
      MergeKeepsMessages(left);
      MessagesOfHead(rows);
      MessagesConcat([MergeGroup(head)], Merge(left));
      MessagesConcat(head, left);
      assert head + left == rows;
    }
  }

  ghost predicate InOrder(rows: seq<OrderedRow>) {
    forall i, j | 0 <= i < j < |rows| :: rows[i].order <= rows[j].order
  }

  lemma MergedOrder(group: seq<OrderedRow>)
    requires group != []
    ensures MergeGroup(group).order == group[0].order
  {
  }

  lemma {:induction false} MergeStaysBehind(rows: seq<OrderedRow>, low: int)
    requires forall i | 0 <= i < |rows| :: low <= rows[i].order
    ensures forall k | 0 <= k < |Merge(rows)| :: low <= Merge(rows)[k].order
    decreases |rows|
  {
    hide MergeGroup;
    if rows != [] {
      var n := 1 + GroupTail(rows[0].row, rows[1..]);
      MergedOrder(rows[..n]);
      MergeStaysBehind(rows[n..], low);
    }
  }

  /** Rows in order stay in order: a merged row stands where its first activity stood. */
  lemma {:induction false} MergeKeepsOrder(rows: seq<OrderedRow>)
    requires InOrder(rows)
    ensures InOrder(Merge(rows))
    decreases |rows|
  {
    hide MergeGroup;
    if rows != [] {
      var n := 1 + GroupTail(rows[0].row, rows[1..]);
      MergedOrder(rows[..n]);
      MergeKeepsOrder(rows[n..]);
      MergeStaysBehind(rows[n..], rows[0].order);
    }
  }

  lemma MergedLooksAlike(group: seq<OrderedRow>, row: ProcessRow)
    requires group != []
    ensures Mergeable(MergeGroup(group).row, row) == Mergeable(group[0].row, row)
    ensures Mergeable(row, MergeGroup(group).row) == Mergeable(row, group[0].row)
  {
  }

  /** No two neighbours of the result could be merged. */
  lemma NoMergeableNeighbours(rows: seq<OrderedRow>)
    ensures forall k | 0 <= k < |Merge(rows)| - 1 :: !Mergeable(Merge(rows)[k].row, Merge(rows)[k + 1].row)
  {
    hide MergeGroup, Mergeable, Merge, Groups;
    GroupsAreMaximal(rows);
    MergeIsByGroups(rows);
    var groups := Groups(rows);
    forall k | 0 <= k < |groups| - 1
      ensures !Mergeable(Merge(rows)[k].row, Merge(rows)[k + 1].row)
    {
      MergedLooksAlike(groups[k], MergeGroup(groups[k + 1]).row);
      MergedLooksAlike(groups[k + 1], groups[k][0].row);
    }
  }

  lemma {:induction false} NothingToMerge(rows: seq<OrderedRow>)
    requires forall k | 0 <= k < |rows| - 1 :: !Mergeable(rows[k].row, rows[k + 1].row)
    ensures Merge(rows) == rows
  {
    if rows != [] {
      if |rows| > 1 {
        assert !Mergeable(rows[0].row, rows[0 + 1].row);
      }
      assert rows[..1] == [rows[0]];
      NothingToMerge(rows[1..]);
    }
  }

  /** Merging again changes nothing. */
  lemma MergeIsIdempotent(rows: seq<OrderedRow>)
    ensures Merge(Merge(rows)) == Merge(rows)
  {
    hide MergeGroup, Mergeable, Merge;
    NoMergeableNeighbours(rows);
    NothingToMerge(Merge(rows));
  }

  /** What a merged row says: it stands for all its activities, runs while one of them runs, and has failed when one has
      failed and none runs. */
  lemma MergedRowMeaning(rows: seq<OrderedRow>, k: nat)
    requires k < |Groups(rows)|
    ensures var group := Groups(rows)[k];
            && group != [] && k < |Merge(rows)|
            && (|group| == 1 ==> Merge(rows)[k] == group[0])
            && (|group| > 1 ==>
                  && Merge(rows)[k].order == group[0].order
                  && (forall i | 0 <= i < |group| :: group[i].row.Activity?)
                  && var row := Merge(rows)[k].row;
                     && row.Activity? && row.kind == Tool && row.labelText == group[0].row.labelText
                     && row.itemCount == Some(TotalItems(group))
                     && (row.status == Running <==> exists i :: 0 <= i < |group| && group[i].row.status == Running)
                     && (row.status == Completed <==> forall i | 0 <= i < |group| :: group[i].row.status == Completed))
  {
    GroupsAreMaximal(rows);
    MergeIsByGroups(rows);
    var group := Groups(rows)[k];
    assert Uniform(group);
    if |group| > 1 {
      assert Mergeable(group[0].row, group[1].row);
    }
  }
}
