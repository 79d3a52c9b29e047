/** Where the rows of a run stand among the messages: the transcript laid out message by message, without the set of
    used runs that the passes share. */
module TranscriptOrder {
  import opened Wrappers
  import opened RunGroups
  import opened Transcript

  // ----- the layout

  /** The n-th message is the first one that brings the run along; at the end stand the runs that no message brings and
      whose assistant message is not listed. */
  predicate StandsAt(messages: seq<Message>, n: nat, group: RunGroup)
    requires n <= |messages|
  {
    && (forall i | 0 <= i < n :: !Brings(messages[i], group))
    && if n == |messages| then !group.hasPersistedAssistantMessage else Brings(messages[n], group)
  }

  /** The runs that stand at a message, in the order of the groups. */
  function RunsAt(messages: seq<Message>, n: nat, groups: seq<RunGroup>): seq<RunGroup>
    requires n <= |messages|
    decreases |groups|
  {
    if groups == [] then []
    else
      var last := |groups| - 1;
      RunsAt(messages, n, groups[..last]) + if StandsAt(messages, n, groups[last]) then [groups[last]] else []
  }

  function RunBlocksOf(groups: seq<RunGroup>): (blocks: seq<Block>)
    ensures |blocks| == |groups| && forall x | 0 <= x < |groups| :: blocks[x] == RunBlock(groups[x])
  {
    if groups == [] then [] else RunBlocksOf(groups[..|groups| - 1]) + [RunBlock(groups[|groups| - 1])]
  }

  function ReferenceBlocksOf(groups: seq<RunGroup>): (blocks: seq<Block>)
    ensures |blocks| == |groups| && forall x | 0 <= x < |groups| :: blocks[x] == ReferencesBlock(groups[x])
  {
    if groups == [] then [] else ReferenceBlocksOf(groups[..|groups| - 1]) + [ReferencesBlock(groups[|groups| - 1])]
  }

  function BothBlocksOf(groups: seq<RunGroup>): (blocks: seq<Block>)
    ensures |blocks| == 2 * |groups|
    ensures forall x | 0 <= x < |groups| ::
              blocks[2 * x] == RunBlock(groups[x]) && blocks[2 * x + 1] == ReferencesBlock(groups[x])
  {
    if groups == [] then []
    else
      var group := groups[|groups| - 1];
      BothBlocksOf(groups[..|groups| - 1]) + [RunBlock(group), ReferencesBlock(group)]
  }

  /** What a message contributes: the runs that end with an assistant message in front of it and their references behind
      it; the runs that a user message has begun behind it. The rest comes behind the last message. */
  function Segment(messages: seq<Message>, n: nat, groups: seq<RunGroup>): seq<Block>
    requires n <= |messages|
  {
    var own := RunsAt(messages, n, groups);
    if n == |messages| then BothBlocksOf(own)
    else
      match messages[n].role
      case Assistant =>
        RunBlocksOf(own) + (if Dropped(messages, n, groups) then [] else [MessageBlock(messages[n])])
        + ReferenceBlocksOf(own)
      case User => [MessageBlock(messages[n])] + BothBlocksOf(own)
      case System => [MessageBlock(messages[n])]
  }

  function Layout(messages: seq<Message>, n: nat, groups: seq<RunGroup>): seq<Block>
    requires n <= |messages| + 1
  {
    if n == 0 then [] else Layout(messages, n - 1, groups) + Segment(messages, n - 1, groups)
  }

  function WholeLayout(messages: seq<Message>, groups: seq<RunGroup>): seq<Block> {
    Layout(messages, |messages| + 1, groups)
  }

  // ----- what each pass adds

  /** The groups that a pass does not pass over. */
  function Usable(groups: seq<RunGroup>, usedRunIds: set<RunId>, persisted: bool): seq<RunGroup> {
    if groups == [] then []
    else
      var last := |groups| - 1;
      Usable(groups[..last], usedRunIds, persisted)
      + if groups[last].runId !in usedRunIds && groups[last].hasPersistedAssistantMessage == persisted
        then [groups[last]] else []
  }

  lemma Sums(a: seq<Block>, b: seq<Block>, c: seq<Block>, d: seq<Block>)
    ensures a + [] == a && a + b + [] + c == a + b + c
    ensures a + b + c == a + (b + c) && a + b + c + d == a + (b + c + d)
  {
  }

  lemma NoGroups(groups: seq<RunGroup>)
    ensures groups + [] == groups
  {
  }

  lemma {:induction false} PreludeAdds(a: Assembly, groups: seq<RunGroup>)
    ensures Prelude(a, groups) == a.(blocks := a.blocks + RunBlocksOf(Usable(groups, a.usedRunIds, true)))
    decreases |groups|
  {
    if groups == [] {
      Sums(a.blocks, [], [], []);
    } else {
      var n := |groups| - 1;
      PreludeAdds(a, groups[..n]);
      var usable := Usable(groups[..n], a.usedRunIds, true);
      Sums(a.blocks, RunBlocksOf(usable), [RunBlock(groups[n])], []);
      NoGroups(usable);
      assert (usable + [groups[n]])[..|usable|] == usable;
    }
  }

  lemma {:induction false} PassesUse(a: Assembly, groups: seq<RunGroup>, runId: RunId)
    ensures runId in Tail(a, groups).usedRunIds ==>
              runId in a.usedRunIds || exists i :: 0 <= i < |groups| && groups[i].runId == runId
    ensures runId in Pending(a, groups).usedRunIds ==>
              runId in a.usedRunIds || exists i :: 0 <= i < |groups| && groups[i].runId == runId
    ensures a.usedRunIds <= Tail(a, groups).usedRunIds && a.usedRunIds <= Pending(a, groups).usedRunIds
    decreases |groups|
  {
    if groups != [] {
      var n := |groups| - 1;
      PassesUse(a, groups[..n], runId);
      assert groups[n].runId == groups[n].runId;
      assert forall i | 0 <= i < n :: groups[..n][i] == groups[i];
    }
  }

  lemma {:induction false} TailAdds(a: Assembly, groups: seq<RunGroup>)
    requires DistinctRuns(groups)
    ensures Tail(a, groups).blocks == a.blocks + ReferenceBlocksOf(Usable(groups, a.usedRunIds, true))
    decreases |groups|
  {
    if groups == [] {
      Sums(a.blocks, [], [], []);
    } else {
      var n := |groups| - 1;
      TailAdds(a, groups[..n]);
      PassesUse(a, groups[..n], groups[n].runId);
      var usable := Usable(groups[..n], a.usedRunIds, true);
      Sums(a.blocks, ReferenceBlocksOf(usable), [ReferencesBlock(groups[n])], []);
      NoGroups(usable);
      assert (usable + [groups[n]])[..|usable|] == usable;
    }
  }

  lemma {:induction false} PendingAdds(a: Assembly, groups: seq<RunGroup>)
    requires DistinctRuns(groups)
    ensures Pending(a, groups).blocks == a.blocks + BothBlocksOf(Usable(groups, a.usedRunIds, false))
    decreases |groups|
  {
    if groups == [] {
      Sums(a.blocks, [], [], []);
    } else {
      var n := |groups| - 1;
      PendingAdds(a, groups[..n]);
      PassesUse(a, groups[..n], groups[n].runId);
      var usable := Usable(groups[..n], a.usedRunIds, false);
      Sums(a.blocks, BothBlocksOf(usable), [RunBlock(groups[n]), ReferencesBlock(groups[n])], []);
      NoGroups(usable);
      assert (usable + [groups[n]])[..|usable|] == usable;
    }
  }

  // ----- the passes compute the layout

  /** The used runs are those that the first n messages have brought. */
  ghost predicate UsedAreBrought(messages: seq<Message>, n: nat, groups: seq<RunGroup>, usedRunIds: set<RunId>)
    requires n <= |messages|
  {
    forall k | 0 <= k < |groups| ::
      groups[k].runId in usedRunIds <==> exists i :: 0 <= i < n && Brings(messages[i], groups[k])
  }

  lemma BroughtIsSome(messages: seq<Message>, n: nat, group: RunGroup)
    requires n <= |messages|
    ensures Brought(messages[..n], group) <==> exists i :: 0 <= i < n && Brings(messages[i], group)
  {
    hide Brings;
    assert forall i | 0 <= i < n :: messages[..n][i] == messages[i];
    if i :| 0 <= i < n && Brings(messages[i], group) {
      assert Brings(messages[..n][i], group);
    }
  }

  lemma UsedSoFar(messages: seq<Message>, n: nat, groups: seq<RunGroup>)
    requires n <= |messages| && DistinctRuns(groups)
    ensures UsedAreBrought(messages, n, groups, AddMessages(messages[..n], groups).usedRunIds)
  {
    hide AddMessages, Brings, Brought;
    forall k | 0 <= k < |groups|
      ensures groups[k].runId in AddMessages(messages[..n], groups).usedRunIds <==>
              exists i :: 0 <= i < n && Brings(messages[i], groups[k])
    {
      assert OnlyOf(groups, groups[k]);
      MessagesAndRun(messages[..n], groups, groups[k]);
      BroughtIsSome(messages, n, groups[k]);
    }
  }

  /** Standing at a message, by the set of used runs. */
  predicate Usably(messages: seq<Message>, n: nat, group: RunGroup, usedRunIds: set<RunId>)
    requires n <= |messages|
  {
    && group.runId !in usedRunIds
    && if n == |messages| then !group.hasPersistedAssistantMessage
       else
         match messages[n].role
         case Assistant => group.hasPersistedAssistantMessage && group.assistantMessageId == Some(messages[n].id)
         case User => !group.hasPersistedAssistantMessage && group.userMessageId == Some(messages[n].id)
         case System => false
  }

  ghost predicate StandUsably(messages: seq<Message>, n: nat, groups: seq<RunGroup>, usedRunIds: set<RunId>)
    requires n <= |messages|
  {
    forall k | 0 <= k < |groups| :: StandsAt(messages, n, groups[k]) <==> Usably(messages, n, groups[k], usedRunIds)
  }

  lemma UsablyIsStanding(messages: seq<Message>, n: nat, groups: seq<RunGroup>, usedRunIds: set<RunId>)
    requires n <= |messages| && UsedAreBrought(messages, n, groups, usedRunIds)
    ensures StandUsably(messages, n, groups, usedRunIds)
  {
  }

  lemma {:induction false} UsableInTheEnd(messages: seq<Message>, n: nat, groups: seq<RunGroup>, usedRunIds: set<RunId>)
    requires n == |messages|
    requires StandUsably(messages, n, groups, usedRunIds)
    ensures Usable(Unused(groups, usedRunIds), usedRunIds, false) == RunsAt(messages, n, groups)
    decreases |groups|
  {
    hide StandsAt, Usable;
    if groups == [] {
      UsableNone(usedRunIds, false);
    } else {
      var last := |groups| - 1;
      assert forall k | 0 <= k < last :: groups[..last][k] == groups[k];
      UsableInTheEnd(messages, n, groups[..last], usedRunIds);
      UsableNext(Unused(groups[..last], usedRunIds), groups[last], usedRunIds, false);
    }
  }

  lemma {:induction false} UsableForAssistant(messages: seq<Message>, n: nat, groups: seq<RunGroup>,
                                              usedRunIds: set<RunId>)
    requires n < |messages| && messages[n].role == Assistant
    requires StandUsably(messages, n, groups, usedRunIds)
    ensures Usable(ByAssistantMessage(groups, messages[n].id), usedRunIds, true) == RunsAt(messages, n, groups)
    decreases |groups|
  {
    hide StandsAt, Usable;
    if groups == [] {
      UsableNone(usedRunIds, true);
    } else {
      var last := |groups| - 1;
      assert forall k | 0 <= k < last :: groups[..last][k] == groups[k];
      UsableForAssistant(messages, n, groups[..last], usedRunIds);
      UsableNext(ByAssistantMessage(groups[..last], messages[n].id), groups[last], usedRunIds, true);
    }
  }

  lemma {:induction false} UsableForUser(messages: seq<Message>, n: nat, groups: seq<RunGroup>, usedRunIds: set<RunId>)
    requires n < |messages| && messages[n].role == User
    requires StandUsably(messages, n, groups, usedRunIds)
    ensures Usable(ByUserMessage(groups, messages[n].id), usedRunIds, false) == RunsAt(messages, n, groups)
    decreases |groups|
  {
    hide StandsAt, Usable;
    if groups == [] {
      UsableNone(usedRunIds, false);
    } else {
      var last := |groups| - 1;
      assert forall k | 0 <= k < last :: groups[..last][k] == groups[k];
      UsableForUser(messages, n, groups[..last], usedRunIds);
      UsableNext(ByUserMessage(groups[..last], messages[n].id), groups[last], usedRunIds, false);
    }
  }

  lemma UsableNone(usedRunIds: set<RunId>, persisted: bool)
    ensures Usable([], usedRunIds, persisted) == []
  {
  }

  lemma UsableNext(groups: seq<RunGroup>, group: RunGroup, usedRunIds: set<RunId>, persisted: bool)
    ensures Usable(groups + [group], usedRunIds, persisted) ==
            Usable(groups, usedRunIds, persisted)
            + if group.runId !in usedRunIds && group.hasPersistedAssistantMessage == persisted then [group] else []
    ensures Usable(groups + [], usedRunIds, persisted) == Usable(groups, usedRunIds, persisted)
  {
    assert (groups + [group])[..|groups|] == groups && groups + [] == groups;
  }

  lemma {:induction false} AssistantRunsAreDistinct(groups: seq<RunGroup>, id: MessageId)
    requires DistinctRuns(groups)
    ensures DistinctRuns(ByAssistantMessage(groups, id))
    decreases |groups|
  {
    if groups != [] {
      var n := |groups| - 1;
      AssistantRunsAreDistinct(groups[..n], id);
      AssistantRunsAreThere(groups[..n], id);
    }
  }

  lemma {:induction false} UserRunsAreDistinct(groups: seq<RunGroup>, id: MessageId)
    requires DistinctRuns(groups)
    ensures DistinctRuns(ByUserMessage(groups, id))
    decreases |groups|
  {
    if groups != [] {
      var n := |groups| - 1;
      UserRunsAreDistinct(groups[..n], id);
      UserRunsAreThere(groups[..n], id);
    }
  }

  lemma {:induction false} UnusedRunsAreDistinct(groups: seq<RunGroup>, usedRunIds: set<RunId>)
    requires DistinctRuns(groups)
    ensures DistinctRuns(Unused(groups, usedRunIds))
    decreases |groups|
  {
    if groups != [] {
      var n := |groups| - 1;
      UnusedRunsAreDistinct(groups[..n], usedRunIds);
      UnusedRunsAreThere(groups[..n], usedRunIds);
    }
  }

  lemma AssistantPassesAdd(a: Assembly, message: Message, groups: seq<RunGroup>)
    requires message.role == Assistant && DistinctRuns(ByAssistantMessage(groups, message.id))
    ensures var own := Usable(ByAssistantMessage(groups, message.id), a.usedRunIds, true);
            AddMessage(a, message, groups).blocks ==
            a.blocks + RunBlocksOf(own)
            + (if ShouldSkip(ByAssistantMessage(groups, message.id), a.usedRunIds) then [] else [MessageBlock(message)])
            + ReferenceBlocksOf(own)
  {
    hide ShouldSkip, DistinctRuns, Prelude, Tail, Usable, ByAssistantMessage, RunBlocksOf, ReferenceBlocksOf;
    var listed := ByAssistantMessage(groups, message.id);
    var own := Usable(listed, a.usedRunIds, true);
    PreludeAdds(a, listed);
    var begun := Prelude(a, listed);
    if ShouldSkip(listed, a.usedRunIds) {
      TailAdds(begun, listed);
      assert begun.blocks + [] == begun.blocks;
    } else {
      TailAdds(begun.(blocks := begun.blocks + [MessageBlock(message)]), listed);
    }
  }

  lemma AssistantMessageIsLaid(messages: seq<Message>, n: nat, groups: seq<RunGroup>, a: Assembly)
    requires n < |messages| && DistinctRuns(groups) && PersistedIn(groups, messages)
    requires a == AddMessages(messages[..n], groups) && messages[n].role == Assistant
    ensures AddMessage(a, messages[n], groups).blocks == a.blocks + Segment(messages, n, groups)
  {
    hide AddMessages, AddMessage, Dropped, ShouldSkip, PersistedIn, DistinctRuns, RunsAt, Usable, UsedAreBrought;
    hide ByAssistantMessage, StandUsably, RunBlocksOf, ReferenceBlocksOf, Segment;
    UsedSoFar(messages, n, groups);
    UsablyIsStanding(messages, n, groups, a.usedRunIds);
    UsableForAssistant(messages, n, groups, a.usedRunIds);
    AssistantRunsAreDistinct(groups, messages[n].id);
    SkipIsDrop(messages, n, groups);
    AssistantPassesAdd(a, messages[n], groups);
    SegmentInFront(messages, n, groups);
    var own := RunsAt(messages, n, groups);
    Sums(a.blocks, RunBlocksOf(own), if Dropped(messages, n, groups) then [] else [MessageBlock(messages[n])],
         ReferenceBlocksOf(own));
  }

  lemma OtherMessageIsLaid(messages: seq<Message>, n: nat, groups: seq<RunGroup>, a: Assembly)
    requires n < |messages| && DistinctRuns(groups)
    requires a == AddMessages(messages[..n], groups) && messages[n].role != Assistant
    ensures AddMessage(a, messages[n], groups).blocks == a.blocks + Segment(messages, n, groups)
  {
    hide AddMessages, Dropped, DistinctRuns, RunsAt, Pending, Usable, UsedAreBrought, ByUserMessage, StandUsably;
    if messages[n].role == User {
      UsedSoFar(messages, n, groups);
      UsablyIsStanding(messages, n, groups, a.usedRunIds);
      UsableForUser(messages, n, groups, a.usedRunIds);
      var message, own := messages[n], RunsAt(messages, n, groups);
      UserRunsAreDistinct(groups, message.id);
      PendingAdds(a.(blocks := a.blocks + [MessageBlock(message)]), ByUserMessage(groups, message.id));
      Sums(a.blocks, [MessageBlock(message)], BothBlocksOf(own), []);
    }
  }

  lemma {:induction false} MessagesAreLaid(messages: seq<Message>, n: nat, groups: seq<RunGroup>)
    requires n <= |messages| && DistinctRuns(groups) && PersistedIn(groups, messages)
    ensures AddMessages(messages[..n], groups).blocks == Layout(messages, n, groups)
  {
    hide AddMessage, Segment, PersistedIn, DistinctRuns;
    if n > 0 {
      MessagesAreLaid(messages, n - 1, groups);
      assert messages[..n][..n - 1] == messages[..n - 1];
      if messages[n - 1].role == Assistant {
        AssistantMessageIsLaid(messages, n - 1, groups, AddMessages(messages[..n - 1], groups));
      } else {
        OtherMessageIsLaid(messages, n - 1, groups, AddMessages(messages[..n - 1], groups));
      }
    }
  }

  /** The passes with their shared set of used runs compute the layout. */
  lemma AssemblyIsLaid(messages: seq<Message>, groups: seq<RunGroup>)
    requires DistinctRuns(groups) && PersistedIn(groups, messages)
    ensures Assemble(messages, groups).blocks == WholeLayout(messages, groups)
  {
    hide AddMessages, PersistedIn, DistinctRuns, Pending, RunsAt, Unused, UsedAreBrought, StandUsably, Usable;
    assert messages[..|messages|] == messages;
    MessagesAreLaid(messages, |messages|, groups);
    var a := AddMessages(messages, groups);
    UsedSoFar(messages, |messages|, groups);
    UsablyIsStanding(messages, |messages|, groups, a.usedRunIds);
    UsableInTheEnd(messages, |messages|, groups, a.usedRunIds);
    UnusedRunsAreDistinct(groups, a.usedRunIds);
    PendingAdds(a, Unused(groups, a.usedRunIds));
  }

  // ----- where the blocks of a run stand in the layout

  lemma {:induction false} LayoutGrows(messages: seq<Message>, m: nat, n: nat, groups: seq<RunGroup>)
    requires m <= n <= |messages| + 1
    ensures Layout(messages, m, groups) <= Layout(messages, n, groups)
    decreases n
  {
    hide Segment;
    if m < n {
      LayoutGrows(messages, m, n - 1, groups);
    }
  }

  lemma {:induction false} SegmentOfBlock(messages: seq<Message>, top: nat, groups: seq<RunGroup>, b: nat)
    returns (n: nat)
    requires top <= |messages| + 1 && b < |Layout(messages, top, groups)|
    ensures n < top && |Layout(messages, n, groups)| <= b < |Layout(messages, n + 1, groups)|
    ensures Layout(messages, n + 1, groups) == Layout(messages, n, groups) + Segment(messages, n, groups)
    ensures Layout(messages, top, groups)[b] == Segment(messages, n, groups)[b - |Layout(messages, n, groups)|]
    decreases top
  {
    hide Segment;
    if b < |Layout(messages, top - 1, groups)| {
      n := SegmentOfBlock(messages, top - 1, groups, b);
    } else {
      n := top - 1;
    }
  }

  lemma {:induction false} RunsAtStand(messages: seq<Message>, n: nat, groups: seq<RunGroup>, x: nat) returns (i: nat)
    requires n <= |messages| && x < |RunsAt(messages, n, groups)|
    ensures i < |groups| && groups[i] == RunsAt(messages, n, groups)[x] && StandsAt(messages, n, groups[i])
    decreases |groups|
  {
    hide StandsAt;
    var last := |groups| - 1;
    if x < |RunsAt(messages, n, groups[..last])| {
      i := RunsAtStand(messages, n, groups[..last], x);
    } else {
      i := last;
    }
  }

  lemma {:induction false} StandingIsAmong(messages: seq<Message>, n: nat, groups: seq<RunGroup>, i: nat)
    returns (x: nat)
    requires n <= |messages| && i < |groups| && StandsAt(messages, n, groups[i])
    ensures x < |RunsAt(messages, n, groups)| && RunsAt(messages, n, groups)[x] == groups[i]
    decreases |groups|
  {
    hide StandsAt;
    var last := |groups| - 1;
    if i < last {
      assert groups[..last][i] == groups[i];
      x := StandingIsAmong(messages, n, groups[..last], i);
    } else {
      x := |RunsAt(messages, n, groups[..last])|;
    }
  }

  /** The runs at a message keep the order of the groups. */
  lemma {:induction false} RunsAtInOrder(messages: seq<Message>, n: nat, groups: seq<RunGroup>, x: nat, y: nat, i: nat,
                                         j: nat)
    requires n <= |messages| && DistinctRuns(groups) && x < y < |RunsAt(messages, n, groups)|
    requires i < |groups| && groups[i] == RunsAt(messages, n, groups)[x]
    requires j < |groups| && groups[j] == RunsAt(messages, n, groups)[y]
    ensures i < j
    decreases |groups|
  {
    hide StandsAt;
    var last := |groups| - 1;
    var before := RunsAt(messages, n, groups[..last]);
    var i' := RunsAtStand(messages, n, groups[..last], x);
    assert i' == i;
    if y < |before| {
      var j' := RunsAtStand(messages, n, groups[..last], y);
      assert j' == j;
      RunsAtInOrder(messages, n, groups[..last], x, y, i, j);
    } else {
      assert j == last;
    }
  }

  lemma StandsOnce(messages: seq<Message>, m: nat, n: nat, group: RunGroup)
    requires m <= |messages| && n <= |messages| && StandsAt(messages, m, group) && StandsAt(messages, n, group)
    ensures m == n
  {
    hide Brings;
  }

  /** The runs at this place stand in front of the message. */
  predicate InFront(messages: seq<Message>, n: nat)
    requires n <= |messages|
  {
    n < |messages| && messages[n].role == Assistant
  }

  lemma InFrontIsPersisted(messages: seq<Message>, n: nat, group: RunGroup)
    requires n <= |messages| && StandsAt(messages, n, group)
    ensures InFront(messages, n) <==> group.hasPersistedAssistantMessage
    ensures n < |messages| ==> messages[n].role != System
  {
  }

  /** Where the x-th run's row stands among the blocks of a message, and where its references. */
  function RunIndex(messages: seq<Message>, n: nat, x: nat): nat
    requires n <= |messages|
  {
    if n == |messages| then 2 * x else if InFront(messages, n) then x else 1 + 2 * x
  }

  function ReferencesIndex(messages: seq<Message>, n: nat, groups: seq<RunGroup>, x: nat): nat
    requires n <= |messages|
  {
    if InFront(messages, n)
    then |RunsAt(messages, n, groups)| + (if Dropped(messages, n, groups) then 0 else 1) + x
    else RunIndex(messages, n, x) + 1
  }

  lemma BothBlocksAre(groups: seq<RunGroup>, j: nat)
    requires j < 2 * |groups|
    ensures BothBlocksOf(groups)[j] ==
            if j % 2 == 0 then RunBlock(groups[j / 2]) else ReferencesBlock(groups[j / 2])
  {
    hide BothBlocksOf;
    var x := j / 2;
    assert j == 2 * x || j == 2 * x + 1;
    assert BothBlocksOf(groups)[2 * x] == RunBlock(groups[x]);
  }

  lemma SegmentInFront(messages: seq<Message>, n: nat, groups: seq<RunGroup>)
    requires n <= |messages| && InFront(messages, n)
    ensures var own := RunsAt(messages, n, groups);
            Segment(messages, n, groups) ==
            RunBlocksOf(own) + (if Dropped(messages, n, groups) then [] else [MessageBlock(messages[n])])
            + ReferenceBlocksOf(own)
  {
    hide RunsAt, Dropped, RunBlocksOf, ReferenceBlocksOf;
  }

  lemma SegmentBehind(messages: seq<Message>, n: nat, groups: seq<RunGroup>)
    requires n <= |messages| && !InFront(messages, n)
    ensures Segment(messages, n, groups) ==
            (if n == |messages| then [] else [MessageBlock(messages[n])]) + BothBlocksOf(RunsAt(messages, n, groups))
  {
    hide Brings, BothBlocksOf;
    if n < |messages| && messages[n].role == System {
      NoRunsAtSystem(messages, n, groups);
      assert [MessageBlock(messages[n])] + [] == [MessageBlock(messages[n])];
      assert BothBlocksOf([]) == [];
    } else if n == |messages| {
      assert [] + BothBlocksOf(RunsAt(messages, n, groups)) == BothBlocksOf(RunsAt(messages, n, groups));
    }
  }

  lemma NoRunsAtSystem(messages: seq<Message>, n: nat, groups: seq<RunGroup>)
    requires n < |messages| && messages[n].role == System
    ensures RunsAt(messages, n, groups) == []
  {
    hide RunsAt;
    if RunsAt(messages, n, groups) != [] {
      var i := RunsAtStand(messages, n, groups, 0);
    }
  }

  lemma SegmentHas(messages: seq<Message>, n: nat, groups: seq<RunGroup>, x: nat)
    requires n <= |messages| && x < |RunsAt(messages, n, groups)|
    ensures var s, own := Segment(messages, n, groups), RunsAt(messages, n, groups);
            && RunIndex(messages, n, x) < ReferencesIndex(messages, n, groups, x) < |s|
            && s[RunIndex(messages, n, x)] == RunBlock(own[x])
            && s[ReferencesIndex(messages, n, groups, x)] == ReferencesBlock(own[x])
  {
    hide RunsAt, Dropped, Segment, BothBlocksOf, RunBlocksOf, ReferenceBlocksOf;
    if InFront(messages, n) {
      SegmentInFront(messages, n, groups);
    } else {
      SegmentBehind(messages, n, groups);
      BothBlocksAre(RunsAt(messages, n, groups), 2 * x);
      BothBlocksAre(RunsAt(messages, n, groups), 2 * x + 1);
    }
  }

  lemma SegmentHasNoOther(messages: seq<Message>, n: nat, groups: seq<RunGroup>, j: nat) returns (x: nat)
    requires n <= |messages| && j < |Segment(messages, n, groups)| && !Segment(messages, n, groups)[j].MessageBlock?
    ensures var s, own := Segment(messages, n, groups), RunsAt(messages, n, groups);
            && x < |own| && s[j].group == own[x]
            && (s[j].RunBlock? ==> j == RunIndex(messages, n, x))
            && (s[j].ReferencesBlock? ==> j == ReferencesIndex(messages, n, groups, x))
  {
    hide RunsAt, Dropped, Segment, BothBlocksOf, RunBlocksOf, ReferenceBlocksOf;
    var own := RunsAt(messages, n, groups);
    if InFront(messages, n) {
      SegmentInFront(messages, n, groups);
      x := if j < |own| then j else j - |own| - if Dropped(messages, n, groups) then 0 else 1;
    } else {
      SegmentBehind(messages, n, groups);
      var behind := if n == |messages| then j else j - 1;
      x := behind / 2;
      BothBlocksAre(own, behind);
    }
  }

  // ----- the messages in front of a block

  lemma {:induction false} MessagesOfConcat(first: seq<Block>, second: seq<Block>)
    ensures MessagesOf(first + second) == MessagesOf(first) + MessagesOf(second)
    decreases |second|
  {
    if second == [] {
      assert first + second == first;
    } else {
      var n := |second| - 1;
      assert (first + second)[..|first| + n] == first + second[..n];
      MessagesOfConcat(first, second[..n]);
    }
  }

  lemma {:induction false} NoMessageBlocks(blocks: seq<Block>)
    requires forall i | 0 <= i < |blocks| :: !blocks[i].MessageBlock?
    ensures MessagesOf(blocks) == []
    decreases |blocks|
  {
    if blocks != [] {
      NoMessageBlocks(blocks[..|blocks| - 1]);
    }
  }

  /** A message among blocks of runs. */
  lemma OneMessageBlock(before: seq<Block>, shown: seq<Message>, behind: seq<Block>)
    requires |shown| <= 1
    requires forall i | 0 <= i < |before| :: !before[i].MessageBlock?
    requires forall i | 0 <= i < |behind| :: !behind[i].MessageBlock?
    ensures MessagesOf(before + (if shown == [] then [] else [MessageBlock(shown[0])]) + behind) == shown
  {
    hide MessagesOf;
    var middle := if shown == [] then [] else [MessageBlock(shown[0])];
    MessagesOfConcat(before + middle, behind);
    MessagesOfConcat(before, middle);
    NoMessageBlocks(before);
    NoMessageBlocks(behind);
    MessagesOfFew(shown);
  }

  lemma MessagesOfFew(shown: seq<Message>)
    requires |shown| <= 1
    ensures MessagesOf(if shown == [] then [] else [MessageBlock(shown[0])]) == shown
  {
    if shown != [] {
      assert [MessageBlock(shown[0])][..0] == [];
    }
  }

  lemma InFrontOfRun(messages: seq<Message>, n: nat, groups: seq<RunGroup>, x: nat)
    requires n <= |messages| && x < |RunsAt(messages, n, groups)|
    requires RunIndex(messages, n, x) < |Segment(messages, n, groups)|
    ensures MessagesOf(Segment(messages, n, groups)[..RunIndex(messages, n, x)]) ==
            if n < |messages| && !InFront(messages, n) then [messages[n]] else []
  {
    hide RunsAt, Dropped, MessagesOf, BothBlocksOf, RunBlocksOf, ReferenceBlocksOf;
    var own, at := RunsAt(messages, n, groups), RunIndex(messages, n, x);
    var front := Segment(messages, n, groups)[..at];
    NoMessageInBoth(own);
    if n < |messages| && !InFront(messages, n) {
      var i := RunsAtStand(messages, n, groups, x);
      InFrontIsPersisted(messages, n, groups[i]);
      var behind := BothBlocksOf(own)[..at - 1];
      assert front == [] + [MessageBlock(messages[n])] + behind;
      OneMessageBlock([], [messages[n]], behind);
    } else {
      NoMessageBlocks(front);
    }
  }

  lemma NoMessageInBoth(groups: seq<RunGroup>)
    ensures forall i | 0 <= i < |BothBlocksOf(groups)| :: !BothBlocksOf(groups)[i].MessageBlock?
  {
    hide BothBlocksOf;
    forall i | 0 <= i < |BothBlocksOf(groups)|
      ensures !BothBlocksOf(groups)[i].MessageBlock?
    {
      BothBlocksAre(groups, i);
    }
  }

  lemma InFrontOfReferences(messages: seq<Message>, n: nat, groups: seq<RunGroup>, x: nat)
    requires n <= |messages| && x < |RunsAt(messages, n, groups)|
    requires ReferencesIndex(messages, n, groups, x) < |Segment(messages, n, groups)|
    ensures MessagesOf(Segment(messages, n, groups)[..ReferencesIndex(messages, n, groups, x)]) ==
            if n < |messages| && !Dropped(messages, n, groups) then [messages[n]] else []
  {
    hide RunsAt, Dropped, MessagesOf, BothBlocksOf, RunBlocksOf, ReferenceBlocksOf;
    var own, at := RunsAt(messages, n, groups), ReferencesIndex(messages, n, groups, x);
    var front := Segment(messages, n, groups)[..at];
    var i := RunsAtStand(messages, n, groups, x);
    InFrontIsPersisted(messages, n, groups[i]);
    NoMessageInBoth(own);
    if n == |messages| {
      NoMessageBlocks(front);
    } else if InFront(messages, n) {
      var shown := if Dropped(messages, n, groups) then [] else [messages[n]];
      var behind := ReferenceBlocksOf(own)[..x];
      assert front == RunBlocksOf(own) + (if shown == [] then [] else [MessageBlock(shown[0])]) + behind;
      OneMessageBlock(RunBlocksOf(own), shown, behind);
    } else {
      NotDropped(messages, n, groups);
      var behind := BothBlocksOf(own)[..at - 1];
      assert front == [] + [MessageBlock(messages[n])] + behind;
      OneMessageBlock([], [messages[n]], behind);
    }
  }

  lemma LaidMessages(messages: seq<Message>, n: nat, groups: seq<RunGroup>)
    requires n <= |messages| && DistinctRuns(groups) && PersistedIn(groups, messages)
    ensures MessagesOf(Layout(messages, n, groups)) == Shown(messages, n, groups)
  {
    hide *;
    MessagesAreLaid(messages, n, groups);
    ShownSoFar(messages, n, groups);
  }

  // ----- the rows of the layout

  lemma RowsNext(blocks: seq<Block>, b: nat)
    requires b < |blocks|
    ensures Rows(blocks[..b + 1]) == Rows(blocks[..b]) + RowsOf(blocks[b])
  {
    assert blocks[..b + 1][..b] == blocks[..b];
  }

  lemma {:induction false} RowsGrow(blocks: seq<Block>, b: nat, c: nat)
    requires b <= c <= |blocks|
    ensures Rows(blocks[..b]) <= Rows(blocks[..c])
    decreases c
  {
    hide Rows, RowsOf;
    if b < c {
      RowsGrow(blocks, b, c - 1);
      RowsNext(blocks, c - 1);
    }
  }

  lemma {:induction false} BlockOfRow(blocks: seq<Block>, top: nat, k: nat) returns (b: nat)
    requires top <= |blocks| && k < |Rows(blocks[..top])|
    ensures b < top && |Rows(blocks[..b])| <= k < |Rows(blocks[..b])| + |RowsOf(blocks[b])|
    ensures Rows(blocks[..top])[k] == RowsOf(blocks[b])[k - |Rows(blocks[..b])|]
    decreases top
  {
    hide RowsOf;
    RowsNext(blocks, top - 1);
    if k < |Rows(blocks[..top - 1])| {
      b := BlockOfRow(blocks, top - 1, k);
    } else {
      b := top - 1;
    }
  }

  /** Where the rows of a block begin. */
  function Start(blocks: seq<Block>, b: nat): nat
    requires b <= |blocks|
  {
    |Rows(blocks[..b])|
  }

  lemma StartsAreOrdered(blocks: seq<Block>, b: nat, c: nat)
    requires b < c <= |blocks|
    ensures Start(blocks, b) + |RowsOf(blocks[b])| <= Start(blocks, c)
    ensures Rows(blocks[..c]) <= Rows(blocks)
  {
    hide Rows, RowsOf;
    RowsNext(blocks, b);
    RowsGrow(blocks, b + 1, c);
    RowsGrow(blocks, c, |blocks|);
    assert blocks[..|blocks|] == blocks;
  }

  lemma RowOfBlock(blocks: seq<Block>, b: nat)
    requires b < |blocks| && RowsOf(blocks[b]) != []
    ensures Start(blocks, b) < |Rows(blocks)| && Rows(blocks)[Start(blocks, b)] == RowsOf(blocks[b])[0]
    ensures MessagesShown(Rows(blocks)[..Start(blocks, b)]) == MessagesOf(blocks[..b])
  {
    hide Rows, RowsOf, MessagesShown, MessagesOf;
    RowsNext(blocks, b);
    StartsAreOrdered(blocks, b, b + 1);
    assert Rows(blocks[..b]) == Rows(blocks)[..Start(blocks, b)];
    MessageRowsAreBlocks(blocks[..b]);
  }

  predicate HasReferencesOf(row: Row, group: RunGroup) {
    row.ReferencesRow? && row.runOfReferences == group.runId
  }

  /** Rows of runs and of references come from their blocks. */
  lemma BlockOfRunRow(blocks: seq<Block>, k: nat) returns (b: nat)
    requires k < |Rows(blocks)| && !Rows(blocks)[k].MessageRow? && !Rows(blocks)[k].ProcessOf?
    ensures b < |blocks| && !blocks[b].MessageBlock? && k == Start(blocks, b)
    ensures var row := Rows(blocks)[k];
            && (row.RunRow? ==> blocks[b].RunBlock? && row.runId == blocks[b].group.runId)
            && (row.ReferencesRow? ==>
                  && blocks[b].ReferencesBlock? && row.runOfReferences == blocks[b].group.runId
                  && blocks[b].group.references == Some(row.references))
  {
    hide Rows;
    assert blocks[..|blocks|] == blocks;
    b := BlockOfRow(blocks, |blocks|, k);
  }

  /** Where a run's block stands in the layout. */
  lemma BlockIsAt(messages: seq<Message>, groups: seq<RunGroup>, b: nat) returns (n: nat, x: nat, i: nat)
    requires b < |WholeLayout(messages, groups)| && !WholeLayout(messages, groups)[b].MessageBlock?
    ensures i < |groups| && groups[i] == WholeLayout(messages, groups)[b].group
    ensures n <= |messages| && StandsAt(messages, n, groups[i])
    ensures x < |RunsAt(messages, n, groups)| && RunsAt(messages, n, groups)[x] == groups[i]
    ensures b == |Layout(messages, n, groups)| + if WholeLayout(messages, groups)[b].RunBlock?
                                                 then RunIndex(messages, n, x)
                                                 else ReferencesIndex(messages, n, groups, x)
    ensures b < |Layout(messages, n + 1, groups)| <= |WholeLayout(messages, groups)|
  {
    hide Layout, Segment, RunsAt, StandsAt, RunIndex, ReferencesIndex;
    n := SegmentOfBlock(messages, |messages| + 1, groups, b);
    LayoutGrows(messages, n + 1, |messages| + 1, groups);
    x := SegmentHasNoOther(messages, n, groups, b - |Layout(messages, n, groups)|);
    i := RunsAtStand(messages, n, groups, x);
  }

  /** Where the layout puts the row of the i-th run. */
  lemma RunRowIsAt(messages: seq<Message>, groups: seq<RunGroup>, i: nat, k: nat) returns (n: nat, x: nat, b: nat)
    requires DistinctRuns(groups) && i < |groups|
    requires k < |Rows(WholeLayout(messages, groups))|
    requires Rows(WholeLayout(messages, groups))[k] == RunRow(groups[i].runId)
    ensures n <= |messages| && StandsAt(messages, n, groups[i])
    ensures x < |RunsAt(messages, n, groups)| && RunsAt(messages, n, groups)[x] == groups[i]
    ensures b == |Layout(messages, n, groups)| + RunIndex(messages, n, x)
    ensures b < |Layout(messages, n + 1, groups)| <= |WholeLayout(messages, groups)|
    ensures k == Start(WholeLayout(messages, groups), b) && WholeLayout(messages, groups)[b] == RunBlock(groups[i])
  {
    hide Rows, Layout, WholeLayout, RunsAt, StandsAt, RunIndex, ReferencesIndex, Start;
    b := BlockOfRunRow(WholeLayout(messages, groups), k);
    var i';
    n, x, i' := BlockIsAt(messages, groups, b);
    assert i' == i;
  }

  /** Where it puts the row of the i-th run's references. */
  lemma ReferencesRowIsAt(messages: seq<Message>, groups: seq<RunGroup>, i: nat, r: nat)
    returns (n: nat, x: nat, b: nat)
    requires DistinctRuns(groups) && i < |groups|
    requires r < |Rows(WholeLayout(messages, groups))|
    requires HasReferencesOf(Rows(WholeLayout(messages, groups))[r], groups[i])
    ensures n <= |messages| && StandsAt(messages, n, groups[i])
    ensures x < |RunsAt(messages, n, groups)| && RunsAt(messages, n, groups)[x] == groups[i]
    ensures b == |Layout(messages, n, groups)| + ReferencesIndex(messages, n, groups, x)
    ensures b < |Layout(messages, n + 1, groups)| <= |WholeLayout(messages, groups)|
    ensures r == Start(WholeLayout(messages, groups), b)
    ensures WholeLayout(messages, groups)[b] == ReferencesBlock(groups[i])
    ensures groups[i].references == Some(Rows(WholeLayout(messages, groups))[r].references)
  {
    hide Rows, Layout, WholeLayout, RunsAt, StandsAt, RunIndex, ReferencesIndex, Start;
    b := BlockOfRunRow(WholeLayout(messages, groups), r);
    var i';
    n, x, i' := BlockIsAt(messages, groups, b);
    assert i' == i;
  }

  /** Both blocks of a run that stands somewhere are in the layout, for a run behind its message next to each other. */
  lemma RunIsLaid(messages: seq<Message>, groups: seq<RunGroup>, i: nat, n: nat) returns (b: nat, c: nat)
    requires i < |groups| && n <= |messages| && StandsAt(messages, n, groups[i])
    ensures b < c < |WholeLayout(messages, groups)| && (InFront(messages, n) || c == b + 1)
    ensures WholeLayout(messages, groups)[b] == RunBlock(groups[i])
    ensures WholeLayout(messages, groups)[c] == ReferencesBlock(groups[i])
  {
    hide Segment, RunsAt, StandsAt, RunIndex, Dropped;
    var x := StandingIsAmong(messages, n, groups, i);
    SegmentHas(messages, n, groups, x);
    LayoutGrows(messages, n + 1, |messages| + 1, groups);
    b := |Layout(messages, n, groups)| + RunIndex(messages, n, x);
    c := |Layout(messages, n, groups)| + ReferencesIndex(messages, n, groups, x);
  }

  // ----- where the rows stand

  lemma TranscriptIsLaid(messages: seq<Message>, events: seq<RunEvent>, project: (RunId, seq<RunEvent>) -> Projection)
    ensures var groups := GroupsOf(messages, events, project);
            && DistinctRuns(groups) && PersistedIn(groups, messages)
            && TranscriptRows(messages, events, project) == Rows(WholeLayout(messages, groups))
  {
    hide CreateGroups, Assemble, WholeLayout, DistinctRuns, PersistedIn;
    GroupsAreRight(messages, events, project);
    AssemblyIsLaid(messages, GroupsOf(messages, events, project));
  }

  /** The groups stand in the order of the runs' first events. */
  lemma GroupsFollowFirstEvents(messages: seq<Message>, events: seq<RunEvent>,
                                project: (RunId, seq<RunEvent>) -> Projection, i: nat, j: nat)
    requires i < j < |GroupsOf(messages, events, project)|
    ensures var groups := GroupsOf(messages, events, project);
            FirstEventId(events, groups[i].runId) <= FirstEventId(events, groups[j].runId)
  {
    hide UnsortedGroups, FirstEventId;
    SortBySorts(UnsortedGroups(events, MessageIds(messages), project),
                (group: RunGroup) => FirstEventId(events, group.runId));
  }

  /** In front of the row of a run stand exactly these messages: if its assistant message is listed, those in front of
      the first one with this id; otherwise those up to the first user message that it names, or all if there is
      none. */
  lemma RunRowStandsAt(messages: seq<Message>, events: seq<RunEvent>, project: (RunId, seq<RunEvent>) -> Projection,
                       i: nat, k: nat)
    requires i < |GroupsOf(messages, events, project)| && k < |TranscriptRows(messages, events, project)|
    requires TranscriptRows(messages, events, project)[k] == RunRow(GroupsOf(messages, events, project)[i].runId)
    ensures var groups, rows := GroupsOf(messages, events, project), TranscriptRows(messages, events, project);
            exists n :: 0 <= n <= |messages| && StandsAt(messages, n, groups[i])
              && MessagesShown(rows[..k]) ==
                 Shown(messages,
                       if groups[i].hasPersistedAssistantMessage || n == |messages| then n else n + 1, groups)
  {
    hide CreateGroups, TranscriptRows, WholeLayout, PersistedIn, DistinctRuns;
    TranscriptIsLaid(messages, events, project);
    var _ := RunIsBehind(messages, GroupsOf(messages, events, project), i, k);
  }

  lemma RunIsBehind(messages: seq<Message>, groups: seq<RunGroup>, i: nat, k: nat) returns (n: nat)
    requires DistinctRuns(groups) && PersistedIn(groups, messages) && i < |groups|
    requires k < |Rows(WholeLayout(messages, groups))|
    requires Rows(WholeLayout(messages, groups))[k] == RunRow(groups[i].runId)
    ensures n <= |messages| && StandsAt(messages, n, groups[i])
    ensures MessagesShown(Rows(WholeLayout(messages, groups))[..k]) ==
            Shown(messages, if groups[i].hasPersistedAssistantMessage || n == |messages| then n else n + 1, groups)
  {
    hide Rows, Layout, Segment, RunsAt, StandsAt, RunIndex, PersistedIn, DistinctRuns, MessagesOf, MessagesShown;
    hide Dropped;
    var x, b;
    n, x, b := RunRowIsAt(messages, groups, i, k);
    RowOfBlock(WholeLayout(messages, groups), b);
    LaidMessages(messages, n, groups);
    FrontOfBlock(messages, groups, n, b);
    SegmentHas(messages, n, groups, x);
    InFrontOfRun(messages, n, groups, x);
    InFrontIsPersisted(messages, n, groups[i]);
    if n < |messages| && !InFront(messages, n) {
      NotDropped(messages, n, groups);
    }
  }

  lemma FrontOfBlock(messages: seq<Message>, groups: seq<RunGroup>, n: nat, b: nat)
    requires n <= |messages| && |Layout(messages, n, groups)| <= b < |Layout(messages, n + 1, groups)|
    requires |Layout(messages, n + 1, groups)| <= |WholeLayout(messages, groups)|
    ensures b - |Layout(messages, n, groups)| < |Segment(messages, n, groups)|
    ensures MessagesOf(WholeLayout(messages, groups)[..b]) ==
            MessagesOf(Layout(messages, n, groups))
            + MessagesOf(Segment(messages, n, groups)[..b - |Layout(messages, n, groups)|])
  {
    hide Segment, MessagesOf;
    var before := Layout(messages, n, groups);
    LayoutGrows(messages, n + 1, |messages| + 1, groups);
    var front := Segment(messages, n, groups)[..b - |before|];
    assert WholeLayout(messages, groups)[..b] == before + front;
    MessagesOfConcat(before, front);
  }

  /** Runs stand in the order of their messages, and at one message in the order of the groups. */
  lemma RunsStandInOrder(messages: seq<Message>, events: seq<RunEvent>, project: (RunId, seq<RunEvent>) -> Projection,
                         i: nat, m: nat, k: nat, j: nat, n: nat, l: nat)
    requires i < |GroupsOf(messages, events, project)| && k < |TranscriptRows(messages, events, project)|
    requires j < |GroupsOf(messages, events, project)| && l < |TranscriptRows(messages, events, project)|
    requires TranscriptRows(messages, events, project)[k] == RunRow(GroupsOf(messages, events, project)[i].runId)
    requires TranscriptRows(messages, events, project)[l] == RunRow(GroupsOf(messages, events, project)[j].runId)
    requires m <= |messages| && StandsAt(messages, m, GroupsOf(messages, events, project)[i])
    requires n <= |messages| && StandsAt(messages, n, GroupsOf(messages, events, project)[j])
    ensures k < l <==> m < n || (m == n && i < j)
  {
    hide CreateGroups, TranscriptRows, WholeLayout, PersistedIn, DistinctRuns, StandsAt;
    TranscriptIsLaid(messages, events, project);
    RunsInOrder(messages, GroupsOf(messages, events, project), i, m, k, j, n, l);
  }

  lemma RunsInOrder(messages: seq<Message>, groups: seq<RunGroup>, i: nat, m: nat, k: nat, j: nat, n: nat, l: nat)
    requires DistinctRuns(groups) && i < |groups| && j < |groups|
    requires k < |Rows(WholeLayout(messages, groups))| && l < |Rows(WholeLayout(messages, groups))|
    requires Rows(WholeLayout(messages, groups))[k] == RunRow(groups[i].runId)
    requires Rows(WholeLayout(messages, groups))[l] == RunRow(groups[j].runId)
    requires m <= |messages| && StandsAt(messages, m, groups[i])
    requires n <= |messages| && StandsAt(messages, n, groups[j])
    ensures k < l <==> m < n || (m == n && i < j)
  {
    hide *;
    if m < n || (m == n && i < j) {
      RunBehindRun(messages, groups, i, m, k, j, n, l);
    } else if n < m || j < i {
      RunBehindRun(messages, groups, j, n, l, i, m, k);
    } else {
      OneRunRow(messages, groups, i, k, l);
    }
  }

  lemma RunBehindRun(messages: seq<Message>, groups: seq<RunGroup>, i: nat, m: nat, k: nat, j: nat, n: nat, l: nat)
    requires DistinctRuns(groups) && i < |groups| && j < |groups|
    requires k < |Rows(WholeLayout(messages, groups))| && l < |Rows(WholeLayout(messages, groups))|
    requires Rows(WholeLayout(messages, groups))[k] == RunRow(groups[i].runId)
    requires Rows(WholeLayout(messages, groups))[l] == RunRow(groups[j].runId)
    requires m <= |messages| && StandsAt(messages, m, groups[i])
    requires n <= |messages| && StandsAt(messages, n, groups[j])
    requires m < n || (m == n && i < j)
    ensures k < l
  {
    hide Rows, Layout, RunsAt, StandsAt, DistinctRuns;
    var m', x, b := RunRowIsAt(messages, groups, i, k);
    var n', y, c := RunRowIsAt(messages, groups, j, l);
    StandsOnce(messages, m, m', groups[i]);
    StandsOnce(messages, n, n', groups[j]);
    if m < n {
      LayoutGrows(messages, m + 1, n, groups);
    } else {
      if y <= x {
        NotInOrder(messages, n, groups, y, x, j, i);
      }
    }
    StartsAreOrdered(WholeLayout(messages, groups), b, c);
  }

  lemma NotInOrder(messages: seq<Message>, n: nat, groups: seq<RunGroup>, x: nat, y: nat, i: nat, j: nat)
    requires n <= |messages| && DistinctRuns(groups) && x <= y < |RunsAt(messages, n, groups)|
    requires i < |groups| && groups[i] == RunsAt(messages, n, groups)[x]
    requires j < |groups| && groups[j] == RunsAt(messages, n, groups)[y]
    ensures i <= j
  {
    hide RunsAt;
    if x < y {
      RunsAtInOrder(messages, n, groups, x, y, i, j);
    }
  }

  lemma OneRunRow(messages: seq<Message>, groups: seq<RunGroup>, i: nat, k: nat, l: nat)
    requires DistinctRuns(groups) && i < |groups|
    requires k < |Rows(WholeLayout(messages, groups))| && l < |Rows(WholeLayout(messages, groups))|
    requires Rows(WholeLayout(messages, groups))[k] == RunRow(groups[i].runId)
    requires Rows(WholeLayout(messages, groups))[l] == RunRow(groups[i].runId)
    ensures k == l
  {
    hide Rows, Layout, RunsAt, StandsAt, RunIndex;
    var m, x, b := RunRowIsAt(messages, groups, i, k);
    var n, y, c := RunRowIsAt(messages, groups, i, l);
    StandsOnce(messages, m, n, groups[i]);
    if x < y {
      RunsAtInOrder(messages, n, groups, x, y, i, i);
    } else if y < x {
      RunsAtInOrder(messages, n, groups, y, x, i, i);
    }
  }

  /** Some place is the run's. */
  predicate StandsSomewhere(messages: seq<Message>, group: RunGroup) {
    exists n | 0 <= n <= |messages| :: StandsAt(messages, n, group)
  }

  /** A run has a row exactly if it has a place, and a row of references exactly if it has references, too; it has no
      second one. */
  lemma RowsAreThereExactly(messages: seq<Message>, events: seq<RunEvent>,
                            project: (RunId, seq<RunEvent>) -> Projection, i: nat)
    requires i < |GroupsOf(messages, events, project)|
    ensures var group, rows := GroupsOf(messages, events, project)[i], TranscriptRows(messages, events, project);
            && (RunRow(group.runId) in rows <==> StandsSomewhere(messages, group))
            && (forall x: nat :: ReferencesRow(group.runId, x) in rows <==>
                  StandsSomewhere(messages, group) && group.references == Some(x))
            && (forall r, r' | 0 <= r < |rows| && 0 <= r' < |rows| && HasReferencesOf(rows[r], group)
                               && HasReferencesOf(rows[r'], group) :: r == r')
  {
    hide CreateGroups, TranscriptRows, WholeLayout, PersistedIn, DistinctRuns, StandsAt, Rows;
    TranscriptIsLaid(messages, events, project);
    var groups := GroupsOf(messages, events, project);
    var group, rows := groups[i], TranscriptRows(messages, events, project);
    if n :| 0 <= n <= |messages| && StandsAt(messages, n, group) {
      LaidRows(messages, groups, i, n);
    }
    forall k | 0 <= k < |rows| && rows[k] == RunRow(group.runId)
      ensures StandsSomewhere(messages, group)
    {
      var n, x, b := RunRowIsAt(messages, groups, i, k);
    }
    forall r | 0 <= r < |rows| && HasReferencesOf(rows[r], group)
      ensures StandsSomewhere(messages, group) && group.references == Some(rows[r].references)
    {
      var n, x, b := ReferencesRowIsAt(messages, groups, i, r);
    }
    forall r, r' | 0 <= r < |rows| && 0 <= r' < |rows| && HasReferencesOf(rows[r], group)
                   && HasReferencesOf(rows[r'], group)
      ensures r == r'
    {
      OneReferencesRow(messages, groups, i, r, r');
    }
  }

  lemma LaidRows(messages: seq<Message>, groups: seq<RunGroup>, i: nat, n: nat)
    requires i < |groups| && n <= |messages| && StandsAt(messages, n, groups[i])
    ensures var rows := Rows(WholeLayout(messages, groups));
            && RunRow(groups[i].runId) in rows
            && (groups[i].references.Some? ==>
                  ReferencesRow(groups[i].runId, groups[i].references.value) in rows)
  {
    hide WholeLayout, StandsAt, Rows;
    var b, c := RunIsLaid(messages, groups, i, n);
    RowOfBlock(WholeLayout(messages, groups), b);
    if groups[i].references.Some? {
      RowOfBlock(WholeLayout(messages, groups), c);
    }
  }

  lemma OneReferencesRow(messages: seq<Message>, groups: seq<RunGroup>, i: nat, r: nat, r': nat)
    requires DistinctRuns(groups) && i < |groups|
    requires r < |Rows(WholeLayout(messages, groups))| && r' < |Rows(WholeLayout(messages, groups))|
    requires HasReferencesOf(Rows(WholeLayout(messages, groups))[r], groups[i])
    requires HasReferencesOf(Rows(WholeLayout(messages, groups))[r'], groups[i])
    ensures r == r'
  {
    hide Rows, Layout, RunsAt, StandsAt, ReferencesIndex;
    var m, x, b := ReferencesRowIsAt(messages, groups, i, r);
    var n, y, c := ReferencesRowIsAt(messages, groups, i, r');
    StandsOnce(messages, m, n, groups[i]);
    if x < y {
      RunsAtInOrder(messages, n, groups, x, y, i, i);
    } else if y < x {
      RunsAtInOrder(messages, n, groups, y, x, i, i);
    }
  }

  /** In front of the references of a run stand exactly these messages: those up to the first one that brings the run
      along, or all if there is none. */
  lemma ReferencesRowStandsAt(messages: seq<Message>, events: seq<RunEvent>,
                              project: (RunId, seq<RunEvent>) -> Projection, i: nat, r: nat)
    requires i < |GroupsOf(messages, events, project)| && r < |TranscriptRows(messages, events, project)|
    requires HasReferencesOf(TranscriptRows(messages, events, project)[r], GroupsOf(messages, events, project)[i])
    ensures var groups, rows := GroupsOf(messages, events, project), TranscriptRows(messages, events, project);
            exists n :: 0 <= n <= |messages| && StandsAt(messages, n, groups[i])
              && MessagesShown(rows[..r]) == Shown(messages, if n == |messages| then n else n + 1, groups)
  {
    hide CreateGroups, TranscriptRows, WholeLayout, PersistedIn, DistinctRuns;
    TranscriptIsLaid(messages, events, project);
    var _ := ReferencesAreBehind(messages, GroupsOf(messages, events, project), i, r);
  }

  lemma ReferencesAreBehind(messages: seq<Message>, groups: seq<RunGroup>, i: nat, r: nat) returns (n: nat)
    requires DistinctRuns(groups) && PersistedIn(groups, messages) && i < |groups|
    requires r < |Rows(WholeLayout(messages, groups))|
    requires HasReferencesOf(Rows(WholeLayout(messages, groups))[r], groups[i])
    ensures n <= |messages| && StandsAt(messages, n, groups[i])
    ensures MessagesShown(Rows(WholeLayout(messages, groups))[..r]) ==
            Shown(messages, if n == |messages| then n else n + 1, groups)
  {
    hide Rows, Layout, Segment, RunsAt, StandsAt, ReferencesIndex, PersistedIn, DistinctRuns, MessagesOf, MessagesShown;
    hide Dropped;
    var x, b;
    n, x, b := ReferencesRowIsAt(messages, groups, i, r);
    RowOfBlock(WholeLayout(messages, groups), b);
    LaidMessages(messages, n, groups);
    FrontOfBlock(messages, groups, n, b);
    SegmentHas(messages, n, groups, x);
    InFrontOfReferences(messages, n, groups, x);
  }

  /** The references of runs stand in the same order as the runs. */
  lemma ReferencesStandInOrder(messages: seq<Message>, events: seq<RunEvent>,
                               project: (RunId, seq<RunEvent>) -> Projection,
                               i: nat, m: nat, r: nat, j: nat, n: nat, r': nat)
    requires i < |GroupsOf(messages, events, project)| && r < |TranscriptRows(messages, events, project)|
    requires j < |GroupsOf(messages, events, project)| && r' < |TranscriptRows(messages, events, project)|
    requires HasReferencesOf(TranscriptRows(messages, events, project)[r], GroupsOf(messages, events, project)[i])
    requires HasReferencesOf(TranscriptRows(messages, events, project)[r'], GroupsOf(messages, events, project)[j])
    requires m <= |messages| && StandsAt(messages, m, GroupsOf(messages, events, project)[i])
    requires n <= |messages| && StandsAt(messages, n, GroupsOf(messages, events, project)[j])
    ensures r < r' <==> m < n || (m == n && i < j)
  {
    hide CreateGroups, TranscriptRows, WholeLayout, PersistedIn, DistinctRuns, StandsAt;
    TranscriptIsLaid(messages, events, project);
    ReferencesInOrder(messages, GroupsOf(messages, events, project), i, m, r, j, n, r');
  }

  lemma ReferencesInOrder(messages: seq<Message>, groups: seq<RunGroup>, i: nat, m: nat, r: nat, j: nat, n: nat,
                          r': nat)
    requires DistinctRuns(groups) && i < |groups| && j < |groups|
    requires r < |Rows(WholeLayout(messages, groups))| && r' < |Rows(WholeLayout(messages, groups))|
    requires HasReferencesOf(Rows(WholeLayout(messages, groups))[r], groups[i])
    requires HasReferencesOf(Rows(WholeLayout(messages, groups))[r'], groups[j])
    requires m <= |messages| && StandsAt(messages, m, groups[i])
    requires n <= |messages| && StandsAt(messages, n, groups[j])
    ensures r < r' <==> m < n || (m == n && i < j)
  {
    hide *;
    if m < n || (m == n && i < j) {
      ReferencesBehindReferences(messages, groups, i, m, r, j, n, r');
    } else if n < m || j < i {
      ReferencesBehindReferences(messages, groups, j, n, r', i, m, r);
    } else {
      OneReferencesRow(messages, groups, i, r, r');
    }
  }

  lemma ReferencesBehindReferences(messages: seq<Message>, groups: seq<RunGroup>, i: nat, m: nat, r: nat, j: nat,
                                   n: nat, r': nat)
    requires DistinctRuns(groups) && i < |groups| && j < |groups|
    requires r < |Rows(WholeLayout(messages, groups))| && r' < |Rows(WholeLayout(messages, groups))|
    requires HasReferencesOf(Rows(WholeLayout(messages, groups))[r], groups[i])
    requires HasReferencesOf(Rows(WholeLayout(messages, groups))[r'], groups[j])
    requires m <= |messages| && StandsAt(messages, m, groups[i])
    requires n <= |messages| && StandsAt(messages, n, groups[j])
    requires m < n || (m == n && i < j)
    ensures r < r'
  {
    hide Rows, Layout, RunsAt, StandsAt, DistinctRuns, Dropped;
    var m', x, b := ReferencesRowIsAt(messages, groups, i, r);
    var n', y, c := ReferencesRowIsAt(messages, groups, j, r');
    StandsOnce(messages, m, m', groups[i]);
    StandsOnce(messages, n, n', groups[j]);
    if m < n {
      LayoutGrows(messages, m + 1, n, groups);
    } else {
      if y <= x {
        NotInOrder(messages, n, groups, y, x, j, i);
      }
    }
    StartsAreOrdered(WholeLayout(messages, groups), b, c);
  }

  /** The references of a run stand behind the runs of earlier messages and, at one message, behind all its runs if they
      have a listed assistant message, and behind the runs up to their own otherwise. */
  lemma ReferencesStandBehindRuns(messages: seq<Message>, events: seq<RunEvent>,
                                  project: (RunId, seq<RunEvent>) -> Projection,
                                  i: nat, m: nat, k: nat, j: nat, n: nat, r: nat)
    requires i < |GroupsOf(messages, events, project)| && k < |TranscriptRows(messages, events, project)|
    requires j < |GroupsOf(messages, events, project)| && r < |TranscriptRows(messages, events, project)|
    requires TranscriptRows(messages, events, project)[k] == RunRow(GroupsOf(messages, events, project)[i].runId)
    requires HasReferencesOf(TranscriptRows(messages, events, project)[r], GroupsOf(messages, events, project)[j])
    requires m <= |messages| && StandsAt(messages, m, GroupsOf(messages, events, project)[i])
    requires n <= |messages| && StandsAt(messages, n, GroupsOf(messages, events, project)[j])
    ensures var group := GroupsOf(messages, events, project)[i];
            && (k < r <==> m < n || (m == n && (group.hasPersistedAssistantMessage || i <= j)))
            && (k < r ==> k + |group.processRows| < r)
            && (i == j && !group.hasPersistedAssistantMessage ==> r == k + 1 + |group.processRows|)
  {
    hide CreateGroups, TranscriptRows, WholeLayout, PersistedIn, DistinctRuns, StandsAt;
    TranscriptIsLaid(messages, events, project);
    ReferencesAndRun(messages, GroupsOf(messages, events, project), i, m, k, j, n, r);
  }

  lemma ReferencesAndRun(messages: seq<Message>, groups: seq<RunGroup>, i: nat, m: nat, k: nat, j: nat, n: nat, r: nat)
    requires DistinctRuns(groups) && i < |groups| && j < |groups|
    requires k < |Rows(WholeLayout(messages, groups))| && r < |Rows(WholeLayout(messages, groups))|
    requires Rows(WholeLayout(messages, groups))[k] == RunRow(groups[i].runId)
    requires HasReferencesOf(Rows(WholeLayout(messages, groups))[r], groups[j])
    requires m <= |messages| && StandsAt(messages, m, groups[i])
    requires n <= |messages| && StandsAt(messages, n, groups[j])
    ensures k < r <==> m < n || (m == n && (groups[i].hasPersistedAssistantMessage || i <= j))
    ensures k < r ==> k + |groups[i].processRows| < r
    ensures i == j && !groups[i].hasPersistedAssistantMessage ==> r == k + 1 + |groups[i].processRows|
  {
    hide Rows, Layout, RunsAt, StandsAt, DistinctRuns, RunIndex, ReferencesIndex;
    var blocks := WholeLayout(messages, groups);
    var m', x, b := RunRowIsAt(messages, groups, i, k);
    var n', y, c := ReferencesRowIsAt(messages, groups, j, r);
    StandsOnce(messages, m, m', groups[i]);
    StandsOnce(messages, n, n', groups[j]);
    InFrontIsPersisted(messages, m, groups[i]);
    if i == j {
      StandsOnce(messages, m, n, groups[i]);
    }
    if m < n {
      LayoutGrows(messages, m + 1, n, groups);
    } else if n < m {
      LayoutGrows(messages, n + 1, m, groups);
    } else {
      SameOrder(messages, n, groups, x, y, i, j);
      IndicesInSegment(messages, n, groups, x, y);
    }
    if b < c {
      StartsAreOrdered(blocks, b, c);
      if c == b + 1 {
        RowsNext(blocks, b);
      }
    } else {
      StartsAreOrdered(blocks, c, b);
    }
  }

  lemma SameOrder(messages: seq<Message>, n: nat, groups: seq<RunGroup>, x: nat, y: nat, i: nat, j: nat)
    requires n <= |messages| && DistinctRuns(groups)
    requires x < |RunsAt(messages, n, groups)| && y < |RunsAt(messages, n, groups)|
    requires i < |groups| && groups[i] == RunsAt(messages, n, groups)[x]
    requires j < |groups| && groups[j] == RunsAt(messages, n, groups)[y]
    ensures x < y <==> i < j
    ensures x == y <==> i == j
  {
    hide RunsAt;
    if x < y {
      RunsAtInOrder(messages, n, groups, x, y, i, j);
    } else if y < x {
      RunsAtInOrder(messages, n, groups, y, x, j, i);
    }
  }

  lemma IndicesInSegment(messages: seq<Message>, n: nat, groups: seq<RunGroup>, x: nat, y: nat)
    requires n <= |messages| && x < |RunsAt(messages, n, groups)| && y < |RunsAt(messages, n, groups)|
    ensures RunIndex(messages, n, x) < ReferencesIndex(messages, n, groups, y) <==> InFront(messages, n) || x <= y
    ensures RunIndex(messages, n, x) != ReferencesIndex(messages, n, groups, y)
    ensures !InFront(messages, n) ==> ReferencesIndex(messages, n, groups, x) == RunIndex(messages, n, x) + 1
  {
    hide RunsAt, Dropped;
  }
}
