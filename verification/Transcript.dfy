/** The transcript: messages and runs interleaved by several passes that share the set of runs already shown. */
module Transcript {
  import opened Wrappers
  import opened RunGroups

  datatype Role = User | Assistant | System

  datatype Message = Message(id: MessageId, role: Role)

  datatype Row =
    | MessageRow(message: Message)
    | RunRow(runId: RunId)
    | ProcessOf(ofRun: RunId, row: ProcessRow)
    | ReferencesRow(runOfReferences: RunId, references: nat)

  /** What the passes put into the transcript at once. */
  datatype Block = MessageBlock(message: Message) | RunBlock(group: RunGroup) | ReferencesBlock(group: RunGroup)

  /** The transcript so far, and the runs that need not be looked at any more. */
  datatype Assembly = Assembly(blocks: seq<Block>, usedRunIds: set<RunId>)

  // ----- rows

  function ProcessRowsOf(group: RunGroup): (rows: seq<Row>)
    ensures |rows| == |group.processRows|
  {
    seq(|group.processRows|, i requires 0 <= i < |group.processRows| => ProcessOf(group.runId, group.processRows[i]))
  }

  function RowsOf(block: Block): seq<Row> {
    match block
    case MessageBlock(message) => [MessageRow(message)]
    case RunBlock(group) => [RunRow(group.runId)] + ProcessRowsOf(group)
    case ReferencesBlock(group) =>
      if group.references.Some? then [ReferencesRow(group.runId, group.references.value)] else []
  }

  function Rows(blocks: seq<Block>): seq<Row> {
    if blocks == [] then [] else Rows(blocks[..|blocks| - 1]) + RowsOf(blocks[|blocks| - 1])
  }

  // ----- the passes

  /** appendAssistantRunPrelude. */
  function Prelude(a: Assembly, groups: seq<RunGroup>): Assembly {
    if groups == [] then a
    else
      var before, group := Prelude(a, groups[..|groups| - 1]), groups[|groups| - 1];
      if group.runId in before.usedRunIds || !group.hasPersistedAssistantMessage then before
      else before.(blocks := before.blocks + [RunBlock(group)])
  }

  /** appendRunTailRows. */
  function Tail(a: Assembly, groups: seq<RunGroup>): Assembly {
    if groups == [] then a
    else
      var before, group := Tail(a, groups[..|groups| - 1]), groups[|groups| - 1];
      if group.runId in before.usedRunIds || !group.hasPersistedAssistantMessage then before
      else Assembly(before.blocks + [ReferencesBlock(group)], before.usedRunIds + {group.runId})
  }

  /** appendPendingRunGroups. */
  function Pending(a: Assembly, groups: seq<RunGroup>): Assembly {
    if groups == [] then a
    else
      var before, group := Pending(a, groups[..|groups| - 1]), groups[|groups| - 1];
      if group.runId in before.usedRunIds || group.hasPersistedAssistantMessage then before
      else Assembly(before.blocks + [RunBlock(group), ReferencesBlock(group)], before.usedRunIds + {group.runId})
  }

  /** shouldSkipPersistedAssistantMessage. */
  predicate ShouldSkip(groups: seq<RunGroup>, usedRunIds: set<RunId>) {
    exists i | 0 <= i < |groups| ::
      groups[i].runId !in usedRunIds && groups[i].hasPersistedAssistantMessage && HasDeltaMessageRows(groups[i])
  }

  function ByAssistantMessage(groups: seq<RunGroup>, id: MessageId): seq<RunGroup> {
    if groups == [] then []
    else
      var n := |groups| - 1;
      ByAssistantMessage(groups[..n], id) + if groups[n].assistantMessageId == Some(id) then [groups[n]] else []
  }

  function ByUserMessage(groups: seq<RunGroup>, id: MessageId): seq<RunGroup> {
    if groups == [] then []
    else
      var n := |groups| - 1;
      ByUserMessage(groups[..n], id) + if groups[n].userMessageId == Some(id) then [groups[n]] else []
  }

  function Unused(groups: seq<RunGroup>, usedRunIds: set<RunId>): seq<RunGroup> {
    if groups == [] then []
    else
      var n := |groups| - 1;
      Unused(groups[..n], usedRunIds) + if groups[n].runId !in usedRunIds then [groups[n]] else []
  }

  function AddMessage(a: Assembly, message: Message, groups: seq<RunGroup>): Assembly {
    var shown := a.(blocks := a.blocks + [MessageBlock(message)]);
    match message.role
    case Assistant =>
      var own := ByAssistantMessage(groups, message.id);
      var begun := Prelude(a, own);
      var all := begun.(blocks := begun.blocks + [MessageBlock(message)]);
      Tail(if ShouldSkip(own, a.usedRunIds) then begun else all, own)
    case User => Pending(shown, ByUserMessage(groups, message.id))
    case System => shown
  }

  function AddMessages(messages: seq<Message>, groups: seq<RunGroup>): Assembly {
    if messages == [] then Assembly([], {})
    else AddMessage(AddMessages(messages[..|messages| - 1], groups), messages[|messages| - 1], groups)
  }

  function Assemble(messages: seq<Message>, groups: seq<RunGroup>): Assembly {
    var a := AddMessages(messages, groups);
    Pending(a, Unused(groups, a.usedRunIds))
  }

  function MessageIds(messages: seq<Message>): (ids: set<MessageId>)
    ensures forall id :: id in ids <==> exists i :: 0 <= i < |messages| && messages[i].id == id
  {
    set i | 0 <= i < |messages| :: messages[i].id
  }

  /** createChatTranscriptRows as a function. */
  function TranscriptRows(messages: seq<Message>, events: seq<RunEvent>, project: (RunId, seq<RunEvent>) -> Projection)
    : seq<Row>
  {
    Rows(Assemble(messages, CreateGroups(events, MessageIds(messages), project)).blocks)
  }

  // ----- how often a run is shown

  function RunBlocks(blocks: seq<Block>, runId: RunId): nat {
    if blocks == [] then 0
    else
      var last := blocks[|blocks| - 1];
      RunBlocks(blocks[..|blocks| - 1], runId) + if last.RunBlock? && last.group.runId == runId then 1 else 0
  }

  lemma RunBlocksOne(blocks: seq<Block>, block: Block, runId: RunId)
    ensures RunBlocks(blocks + [block], runId) ==
            RunBlocks(blocks, runId) + if block.RunBlock? && block.group.runId == runId then 1 else 0
  {
  }

  lemma RunBlocksTwo(blocks: seq<Block>, group: RunGroup, runId: RunId)
    ensures RunBlocks(blocks + [RunBlock(group), ReferencesBlock(group)], runId) ==
            RunBlocks(blocks, runId) + if group.runId == runId then 1 else 0
  {
    var both := blocks + [RunBlock(group), ReferencesBlock(group)];
    assert both == blocks + [RunBlock(group)] + [ReferencesBlock(group)];
    RunBlocksOne(blocks, RunBlock(group), runId);
    RunBlocksOne(blocks + [RunBlock(group)], ReferencesBlock(group), runId);
  }

  /** In the list, the group is the only one of its run. */
  predicate OnlyOf(groups: seq<RunGroup>, group: RunGroup) {
    && (forall i | 0 <= i < |groups| && groups[i].runId == group.runId :: groups[i] == group)
    && DistinctRuns(groups)
  }

  lemma {:induction false} PreludeAndRun(a: Assembly, groups: seq<RunGroup>, group: RunGroup)
    requires OnlyOf(groups, group)
    ensures var a' := Prelude(a, groups);
            && a'.usedRunIds == a.usedRunIds
            && RunBlocks(a'.blocks, group.runId) == RunBlocks(a.blocks, group.runId) +
                 if group in groups && group.runId !in a.usedRunIds && group.hasPersistedAssistantMessage then 1 else 0
    decreases |groups|
  {
    hide RunBlocks;
    if groups != [] {
      var n := |groups| - 1;
      assert groups == groups[..n] + [groups[n]];
      PreludeAndRun(a, groups[..n], group);
      RunBlocksOne(Prelude(a, groups[..n]).blocks, RunBlock(groups[n]), group.runId);
    }
  }

  lemma {:induction false} TailAndRun(a: Assembly, groups: seq<RunGroup>, group: RunGroup)
    requires OnlyOf(groups, group)
    ensures var a' := Tail(a, groups);
            && RunBlocks(a'.blocks, group.runId) == RunBlocks(a.blocks, group.runId)
            && (group.runId in a'.usedRunIds <==>
                  group.runId in a.usedRunIds || (group in groups && group.hasPersistedAssistantMessage))
    decreases |groups|
  {
    hide RunBlocks;
    if groups != [] {
      var n := |groups| - 1;
      assert groups == groups[..n] + [groups[n]];
      TailAndRun(a, groups[..n], group);
      RunBlocksOne(Tail(a, groups[..n]).blocks, ReferencesBlock(groups[n]), group.runId);
    }
  }

  lemma {:induction false} PendingAndRun(a: Assembly, groups: seq<RunGroup>, group: RunGroup)
    requires OnlyOf(groups, group)
    ensures var a' := Pending(a, groups);
            && RunBlocks(a'.blocks, group.runId) == RunBlocks(a.blocks, group.runId) +
                 (if group in groups && group.runId !in a.usedRunIds && !group.hasPersistedAssistantMessage
                  then 1 else 0)
            && (group.runId in a'.usedRunIds <==>
                  group.runId in a.usedRunIds || (group in groups && !group.hasPersistedAssistantMessage))
    decreases |groups|
  {
    hide RunBlocks;
    if groups != [] {
      var n := |groups| - 1;
      assert groups == groups[..n] + [groups[n]];
      PendingAndRun(a, groups[..n], group);
      RunBlocksTwo(Pending(a, groups[..n]).blocks, groups[n], group.runId);
    }
  }

  lemma {:induction false} ByAssistantIs(groups: seq<RunGroup>, id: MessageId, group: RunGroup)
    ensures group in ByAssistantMessage(groups, id) <==> group in groups && group.assistantMessageId == Some(id)
    ensures OnlyOf(groups, group) ==> OnlyOf(ByAssistantMessage(groups, id), group)
    decreases |groups|
  {
    if groups != [] {
      var n := |groups| - 1;
      assert groups == groups[..n] + [groups[n]];
      ByAssistantIs(groups[..n], id, group);
      AssistantRunsAreThere(groups[..n], id);
    }
  }

  lemma {:induction false} AssistantRunsAreThere(groups: seq<RunGroup>, id: MessageId)
    ensures forall i | 0 <= i < |ByAssistantMessage(groups, id)| :: ByAssistantMessage(groups, id)[i] in groups
    decreases |groups|
  {
    if groups != [] {
      AssistantRunsAreThere(groups[..|groups| - 1], id);
    }
  }

  lemma {:induction false} ByUserIs(groups: seq<RunGroup>, id: MessageId, group: RunGroup)
    ensures group in ByUserMessage(groups, id) <==> group in groups && group.userMessageId == Some(id)
    ensures OnlyOf(groups, group) ==> OnlyOf(ByUserMessage(groups, id), group)
    decreases |groups|
  {
    if groups != [] {
      var n := |groups| - 1;
      assert groups == groups[..n] + [groups[n]];
      ByUserIs(groups[..n], id, group);
      UserRunsAreThere(groups[..n], id);
    }
  }

  lemma {:induction false} UserRunsAreThere(groups: seq<RunGroup>, id: MessageId)
    ensures forall i | 0 <= i < |ByUserMessage(groups, id)| :: ByUserMessage(groups, id)[i] in groups
    decreases |groups|
  {
    if groups != [] {
      UserRunsAreThere(groups[..|groups| - 1], id);
    }
  }

  lemma {:induction false} UnusedIs(groups: seq<RunGroup>, usedRunIds: set<RunId>, group: RunGroup)
    ensures group in Unused(groups, usedRunIds) <==> group in groups && group.runId !in usedRunIds
    ensures OnlyOf(groups, group) ==> OnlyOf(Unused(groups, usedRunIds), group)
    decreases |groups|
  {
    if groups != [] {
      var n := |groups| - 1;
      assert groups == groups[..n] + [groups[n]];
      UnusedIs(groups[..n], usedRunIds, group);
      UnusedRunsAreThere(groups[..n], usedRunIds);
    }
  }

  lemma {:induction false} UnusedRunsAreThere(groups: seq<RunGroup>, usedRunIds: set<RunId>)
    ensures forall i | 0 <= i < |Unused(groups, usedRunIds)| :: Unused(groups, usedRunIds)[i] in groups
    decreases |groups|
  {
    if groups != [] {
      UnusedRunsAreThere(groups[..|groups| - 1], usedRunIds);
    }
  }

  /** The message brings the run's rows along, unless they are there already. */
  predicate Brings(message: Message, group: RunGroup) {
    if group.hasPersistedAssistantMessage
    then message.role == Assistant && group.assistantMessageId == Some(message.id)
    else message.role == User && group.userMessageId == Some(message.id)
  }

  predicate Brought(messages: seq<Message>, group: RunGroup) {
    exists i | 0 <= i < |messages| :: Brings(messages[i], group)
  }

  lemma MessageAndRun(a: Assembly, message: Message, groups: seq<RunGroup>, group: RunGroup)
    requires group in groups && OnlyOf(groups, group)
    ensures var a' := AddMessage(a, message, groups);
            && RunBlocks(a'.blocks, group.runId) == RunBlocks(a.blocks, group.runId) +
                 (if Brings(message, group) && group.runId !in a.usedRunIds then 1 else 0)
            && (group.runId in a'.usedRunIds <==> group.runId in a.usedRunIds || Brings(message, group))
  {
    hide RunBlocks, Prelude, Tail, Pending, OnlyOf, ShouldSkip;
    RunBlocksOne(a.blocks, MessageBlock(message), group.runId);
    if message.role == Assistant {
      var own := ByAssistantMessage(groups, message.id);
      ByAssistantIs(groups, message.id, group);
      PreludeAndRun(a, own, group);
      var begun := Prelude(a, own);
      RunBlocksOne(begun.blocks, MessageBlock(message), group.runId);
      var all := begun.(blocks := begun.blocks + [MessageBlock(message)]);
      TailAndRun(if ShouldSkip(own, a.usedRunIds) then begun else all, own, group);
    } else if message.role == User {
      ByUserIs(groups, message.id, group);
      PendingAndRun(a.(blocks := a.blocks + [MessageBlock(message)]), ByUserMessage(groups, message.id), group);
    }
  }

  lemma {:induction false} MessagesAndRun(messages: seq<Message>, groups: seq<RunGroup>, group: RunGroup)
    requires group in groups && OnlyOf(groups, group)
    ensures var a := AddMessages(messages, groups);
            && RunBlocks(a.blocks, group.runId) == (if group.runId in a.usedRunIds then 1 else 0)
            && (group.runId in a.usedRunIds <==> Brought(messages, group))
    decreases |messages|
  {
    hide AddMessage, OnlyOf, Brings;
    if messages != [] {
      var n := |messages| - 1;
      MessagesAndRun(messages[..n], groups, group);
      MessageAndRun(AddMessages(messages[..n], groups), messages[n], groups, group);
      BroughtNext(messages, group);
    }
  }

  lemma BroughtNext(messages: seq<Message>, group: RunGroup)
    requires messages != []
    ensures var n := |messages| - 1;
            Brought(messages, group) <==> Brought(messages[..n], group) || Brings(messages[n], group)
  {
    hide Brings;
    var n := |messages| - 1;
    assert forall i | 0 <= i < n :: messages[..n][i] == messages[i];
    if Brought(messages[..n], group) {
      var i :| 0 <= i < n && Brings(messages[..n][i], group);
      assert Brings(messages[i], group);
    }
  }

  /** A group is shown once; but a group whose persisted message is none of the assistant's is not shown. */
  lemma GroupShown(messages: seq<Message>, groups: seq<RunGroup>, group: RunGroup)
    requires group in groups && DistinctRuns(groups)
    ensures RunBlocks(Assemble(messages, groups).blocks, group.runId) ==
            if group.hasPersistedAssistantMessage && !Brought(messages, group) then 0 else 1
  {
    hide RunBlocks, Pending, AddMessages, Brought;
    assert OnlyOf(groups, group);
    MessagesAndRun(messages, groups, group);
    var a := AddMessages(messages, groups);
    UnusedIs(groups, a.usedRunIds, group);
    PendingAndRun(a, Unused(groups, a.usedRunIds), group);
  }

  // ----- where the blocks come from

  /** Every run that is shown is shown with a group of the list. */
  ghost predicate BlocksFrom(blocks: seq<Block>, groups: seq<RunGroup>) {
    forall i | 0 <= i < |blocks| && !blocks[i].MessageBlock? :: blocks[i].group in groups
  }

  ghost predicate Among(some: seq<RunGroup>, groups: seq<RunGroup>) {
    forall i | 0 <= i < |some| :: some[i] in groups
  }

  lemma {:induction false} PassesTakeFrom(a: Assembly, some: seq<RunGroup>, groups: seq<RunGroup>)
    requires BlocksFrom(a.blocks, groups) && Among(some, groups)
    ensures BlocksFrom(Prelude(a, some).blocks, groups)
    ensures BlocksFrom(Tail(a, some).blocks, groups)
    ensures BlocksFrom(Pending(a, some).blocks, groups)
    decreases |some|
  {
    if some != [] {
      PassesTakeFrom(a, some[..|some| - 1], groups);
      assert some[|some| - 1] in groups;
    }
  }

  lemma {:induction false} MessagesTakeFrom(messages: seq<Message>, groups: seq<RunGroup>)
    ensures BlocksFrom(AddMessages(messages, groups).blocks, groups)
    decreases |messages|
  {
    hide Prelude, Tail, Pending, ShouldSkip;
    if messages != [] {
      var n := |messages| - 1;
      MessagesTakeFrom(messages[..n], groups);
      var a, message := AddMessages(messages[..n], groups), messages[n];
      if message.role == Assistant {
        var own := ByAssistantMessage(groups, message.id);
        AssistantRunsAreThere(groups, message.id);
        PassesTakeFrom(a, own, groups);
        var begun := Prelude(a, own);
        PassesTakeFrom(begun, own, groups);
        PassesTakeFrom(begun.(blocks := begun.blocks + [MessageBlock(message)]), own, groups);
      } else if message.role == User {
        UserRunsAreThere(groups, message.id);
        PassesTakeFrom(a.(blocks := a.blocks + [MessageBlock(message)]), ByUserMessage(groups, message.id), groups);
      }
    }
  }

  lemma TranscriptTakesFrom(messages: seq<Message>, groups: seq<RunGroup>)
    ensures BlocksFrom(Assemble(messages, groups).blocks, groups)
  {
    hide AddMessages, Pending;
    MessagesTakeFrom(messages, groups);
    var a := AddMessages(messages, groups);
    UnusedRunsAreThere(groups, a.usedRunIds);
    PassesTakeFrom(a, Unused(groups, a.usedRunIds), groups);
  }

  lemma {:induction false} NoGroupNoBlock(blocks: seq<Block>, groups: seq<RunGroup>, runId: RunId)
    requires BlocksFrom(blocks, groups) && !HasGroup(groups, runId)
    ensures RunBlocks(blocks, runId) == 0
    decreases |blocks|
  {
    if blocks != [] {
      NoGroupNoBlock(blocks[..|blocks| - 1], groups, runId);
    }
  }

  // ----- rows and blocks

  function CountRunRows(rows: seq<Row>, runId: RunId): nat {
    if rows == [] then 0
    else CountRunRows(rows[..|rows| - 1], runId) + if rows[|rows| - 1] == RunRow(runId) then 1 else 0
  }

  lemma {:induction false} CountRunRowsConcat(first: seq<Row>, second: seq<Row>, runId: RunId)
    ensures CountRunRows(first + second, runId) == CountRunRows(first, runId) + CountRunRows(second, runId)
    decreases |second|
  {
    if second == [] {
      assert first + second == first;
    } else {
      var n := |second| - 1;
      assert (first + second)[..|first| + n] == first + second[..n];
      CountRunRowsConcat(first, second[..n], runId);
    }
  }

  lemma {:induction false} NoRunRows(rows: seq<Row>, runId: RunId)
    requires forall i | 0 <= i < |rows| :: !rows[i].RunRow?
    ensures CountRunRows(rows, runId) == 0
    decreases |rows|
  {
    if rows != [] {
      NoRunRows(rows[..|rows| - 1], runId);
    }
  }

  lemma RunRowsOfBlock(block: Block, runId: RunId)
    ensures CountRunRows(RowsOf(block), runId) == if block.RunBlock? && block.group.runId == runId then 1 else 0
  {
    hide CountRunRows;
    if block.RunBlock? {
      var head := [RunRow(block.group.runId)];
      CountRunRowsConcat(head, ProcessRowsOf(block.group), runId);
      NoRunRows(ProcessRowsOf(block.group), runId);
      OneRow(head[0], runId);
    } else {
      NoRunRows(RowsOf(block), runId);
    }
  }

  lemma OneRow(row: Row, runId: RunId)
    ensures CountRunRows([row], runId) == if row == RunRow(runId) then 1 else 0
  {
    assert [row][..0] == [];
  }

  lemma {:induction false} RunRowsAreBlocks(blocks: seq<Block>, runId: RunId)
    ensures CountRunRows(Rows(blocks), runId) == RunBlocks(blocks, runId)
    decreases |blocks|
  {
    hide RowsOf, CountRunRows;
    if blocks == [] {
      NoRunRows([], runId);
    } else {
      var n := |blocks| - 1;
      RunRowsAreBlocks(blocks[..n], runId);
      CountRunRowsConcat(Rows(blocks[..n]), RowsOf(blocks[n]), runId);
      RunRowsOfBlock(blocks[n], runId);
    }
  }

  /** The process rows of a group's run stand right behind the row of the run. */
  ghost predicate Leads(rows: seq<Row>, k: nat, group: RunGroup)
    requires k < |rows|
  {
    && k + 1 + |group.processRows| <= |rows|
    && rows[k + 1..k + 1 + |group.processRows|] == ProcessRowsOf(group)
  }

  lemma LeadsInLonger(before: seq<Row>, rows: seq<Row>, k: nat, group: RunGroup)
    requires before <= rows && k < |before| && Leads(before, k, group)
    ensures Leads(rows, k, group)
  {
    var end := k + 1 + |group.processRows|;
    assert rows[k + 1..end] == before[k + 1..end];
  }

  lemma LeadsAtItsBlock(before: seq<Row>, group: RunGroup)
    ensures var rows := before + RowsOf(RunBlock(group));
            |before| < |rows| && Leads(rows, |before|, group)
  {
    var rows := before + RowsOf(RunBlock(group));
    assert rows[|before| + 1..] == ProcessRowsOf(group);
    assert rows[|before| + 1..] == rows[|before| + 1..|before| + 1 + |group.processRows|];
  }

  lemma {:induction false} RunRowLeads(blocks: seq<Block>, groups: seq<RunGroup>, group: RunGroup, k: nat)
    requires BlocksFrom(blocks, groups) && OnlyOf(groups, group)
    requires k < |Rows(blocks)| && Rows(blocks)[k] == RunRow(group.runId)
    ensures Leads(Rows(blocks), k, group)
    decreases |blocks|
  {
    hide OnlyOf, Leads;
    var n := |blocks| - 1;
    var before := Rows(blocks[..n]);
    if k < |before| {
      RunRowLeads(blocks[..n], groups, group, k);
      LeadsInLonger(before, Rows(blocks), k, group);
    } else {
      assert Rows(blocks)[k] == RowsOf(blocks[n])[k - |before|];
      assert blocks[n].RunBlock? && k == |before|;
      SameGroup(groups, group, blocks[n].group);
      LeadsAtItsBlock(before, group);
    }
  }

  lemma SameGroup(groups: seq<RunGroup>, group: RunGroup, other: RunGroup)
    requires OnlyOf(groups, group) && other in groups && other.runId == group.runId
    ensures other == group
  {
  }

  /** A row of a run's process belongs to a run row in front of it. */
  lemma {:induction false} ProcessRowFollows(blocks: seq<Block>, groups: seq<RunGroup>, group: RunGroup, k: nat)
    requires BlocksFrom(blocks, groups) && OnlyOf(groups, group)
    requires k < |Rows(blocks)| && Rows(blocks)[k].ProcessOf? && Rows(blocks)[k].ofRun == group.runId
    ensures exists j :: 0 <= j < k <= j + |group.processRows| && Rows(blocks)[j] == RunRow(group.runId)
    decreases |blocks|
  {
    hide OnlyOf;
    var n := |blocks| - 1;
    var before := Rows(blocks[..n]);
    if k < |before| {
      assert before[k] == Rows(blocks)[k];
      ProcessRowFollows(blocks[..n], groups, group, k);
      var j :| 0 <= j < k <= j + |group.processRows| && before[j] == RunRow(group.runId);
      assert Rows(blocks)[j] == RunRow(group.runId);
    } else {
      assert Rows(blocks)[k] == RowsOf(blocks[n])[k - |before|];
      SameGroup(groups, group, blocks[n].group);
      assert Rows(blocks)[|before|] == RunRow(group.runId);
    }
  }

  // ----- which messages are shown

  function MessagesOf(blocks: seq<Block>): seq<Message> {
    if blocks == [] then []
    else
      var last := blocks[|blocks| - 1];
      MessagesOf(blocks[..|blocks| - 1]) + if last.MessageBlock? then [last.message] else []
  }

  lemma {:induction false} PassesAddNoMessage(a: Assembly, groups: seq<RunGroup>)
    ensures MessagesOf(Prelude(a, groups).blocks) == MessagesOf(a.blocks)
    ensures MessagesOf(Tail(a, groups).blocks) == MessagesOf(a.blocks)
    ensures MessagesOf(Pending(a, groups).blocks) == MessagesOf(a.blocks)
    decreases |groups|
  {
    if groups != [] {
      var n := |groups| - 1;
      PassesAddNoMessage(a, groups[..n]);
      NoMessageAdded(Prelude(a, groups[..n]).blocks, groups[n]);
      NoMessageAdded(Tail(a, groups[..n]).blocks, groups[n]);
      NoMessageAdded(Pending(a, groups[..n]).blocks, groups[n]);
    }
  }

  lemma NoMessageAdded(blocks: seq<Block>, group: RunGroup)
    ensures MessagesOf(blocks + [RunBlock(group)]) == MessagesOf(blocks)
    ensures MessagesOf(blocks + [ReferencesBlock(group)]) == MessagesOf(blocks)
    ensures MessagesOf(blocks + [RunBlock(group), ReferencesBlock(group)]) == MessagesOf(blocks)
  {
    var both := blocks + [RunBlock(group), ReferencesBlock(group)];
    assert both[..|both| - 1] == blocks + [RunBlock(group)];
  }

  lemma MessageAdded(blocks: seq<Block>, message: Message)
    ensures MessagesOf(blocks + [MessageBlock(message)]) == MessagesOf(blocks) + [message]
  {
  }

  /** The n-th message is one of the assistant's, the first with its id, and a run that ended with it has streamed
      message rows to show instead. */
  predicate Dropped(messages: seq<Message>, n: nat, groups: seq<RunGroup>)
    requires n < |messages|
  {
    && messages[n].role == Assistant
    && (forall i | 0 <= i < n :: messages[i].id == messages[n].id ==> messages[i].role != Assistant)
    && exists k | 0 <= k < |groups| ::
       groups[k].assistantMessageId == Some(messages[n].id) && HasDeltaMessageRows(groups[k])
  }

  /** The first n messages without the dropped ones. */
  function Shown(messages: seq<Message>, n: nat, groups: seq<RunGroup>): seq<Message>
    requires n <= |messages|
  {
    if n == 0 then []
    else Shown(messages, n - 1, groups) + if Dropped(messages, n - 1, groups) then [] else [messages[n - 1]]
  }

  /** The groups say correctly whether their assistant message is persisted. */
  ghost predicate PersistedIn(groups: seq<RunGroup>, messages: seq<Message>) {
    forall k | 0 <= k < |groups| ::
      groups[k].hasPersistedAssistantMessage <==>
        groups[k].assistantMessageId.Some? && groups[k].assistantMessageId.value in MessageIds(messages)
  }

  lemma SkipIsDrop(messages: seq<Message>, n: nat, groups: seq<RunGroup>)
    requires n < |messages| && DistinctRuns(groups) && PersistedIn(groups, messages) && messages[n].role == Assistant
    ensures ShouldSkip(ByAssistantMessage(groups, messages[n].id), AddMessages(messages[..n], groups).usedRunIds) <==>
            Dropped(messages, n, groups)
  {
    hide AddMessages, HasDeltaMessageRows, ByAssistantMessage;
    var id, used := messages[n].id, AddMessages(messages[..n], groups).usedRunIds;
    var own := ByAssistantMessage(groups, id);
    forall group | group in groups && group.assistantMessageId == Some(id)
      ensures group in own && group.hasPersistedAssistantMessage
      ensures group.runId in used <==> exists i :: 0 <= i < n && messages[i].role == Assistant && messages[i].id == id
    {
      ByAssistantIs(groups, id, group);
      MessagesAndRun(messages[..n], groups, group);
      BroughtBefore(messages, n, group);
    }
    forall group | group in own
      ensures group in groups && group.assistantMessageId == Some(id)
    {
      ByAssistantIs(groups, id, group);
    }
    if ShouldSkip(own, used) {
      var i :| 0 <= i < |own| && own[i].runId !in used && own[i].hasPersistedAssistantMessage
               && HasDeltaMessageRows(own[i]);
      assert own[i] in groups;
      var k :| 0 <= k < |groups| && groups[k] == own[i];
      assert groups[k].assistantMessageId == Some(id) && HasDeltaMessageRows(groups[k]);
    }
    if Dropped(messages, n, groups) {
      var k :| 0 <= k < |groups| && groups[k].assistantMessageId == Some(id) && HasDeltaMessageRows(groups[k]);
      assert groups[k] in own;
      var i :| 0 <= i < |own| && own[i] == groups[k];
      assert own[i].runId !in used;
    }
  }

  lemma BroughtBefore(messages: seq<Message>, n: nat, group: RunGroup)
    requires n <= |messages| && group.hasPersistedAssistantMessage && group.assistantMessageId.Some?
    ensures Brought(messages[..n], group) <==>
            exists i :: 0 <= i < n && messages[i].role == Assistant && messages[i].id == group.assistantMessageId.value
  {
    assert forall i | 0 <= i < n :: messages[..n][i] == messages[i];
    if i :| 0 <= i < n && messages[i].role == Assistant && messages[i].id == group.assistantMessageId.value {
      assert Brings(messages[..n][i], group);
    }
  }

  lemma {:induction false} ShownSoFar(messages: seq<Message>, n: nat, groups: seq<RunGroup>)
    requires n <= |messages| && DistinctRuns(groups) && PersistedIn(groups, messages)
    ensures MessagesOf(AddMessages(messages[..n], groups).blocks) == Shown(messages, n, groups)
  {
    hide Prelude, Tail, Pending, ShouldSkip, MessagesOf, Dropped, PersistedIn, DistinctRuns;
    if n == 0 {
      NoMessages();
    } else {
      ShownSoFar(messages, n - 1, groups);
      assert messages[..n][..n - 1] == messages[..n - 1];
      var a, message := AddMessages(messages[..n - 1], groups), messages[n - 1];
      MessageAdded(a.blocks, message);
      if message.role == Assistant {
        SkipIsDrop(messages, n - 1, groups);
        var own := ByAssistantMessage(groups, message.id);
        PassesAddNoMessage(a, own);
        var begun := Prelude(a, own);
        PassesAddNoMessage(begun, own);
        PassesAddNoMessage(begun.(blocks := begun.blocks + [MessageBlock(message)]), own);
        MessageAdded(begun.blocks, message);
      } else {
        NotDropped(messages, n - 1, groups);
        PassesAddNoMessage(a.(blocks := a.blocks + [MessageBlock(message)]), ByUserMessage(groups, message.id));
      }
    }
  }

  lemma NoMessages()
    ensures MessagesOf([]) == []
  {
  }

  lemma NotDropped(messages: seq<Message>, n: nat, groups: seq<RunGroup>)
    requires n < |messages| && messages[n].role != Assistant
    ensures !Dropped(messages, n, groups)
  {
  }

  function MessagesShown(rows: seq<Row>): seq<Message> {
    if rows == [] then []
    else
      var last := rows[|rows| - 1];
      MessagesShown(rows[..|rows| - 1]) + if last.MessageRow? then [last.message] else []
  }

  lemma {:induction false} MessagesShownConcat(first: seq<Row>, second: seq<Row>)
    ensures MessagesShown(first + second) == MessagesShown(first) + MessagesShown(second)
    decreases |second|
  {
    if second == [] {
      assert first + second == first;
    } else {
      var n := |second| - 1;
      assert (first + second)[..|first| + n] == first + second[..n];
      MessagesShownConcat(first, second[..n]);
    }
  }

  lemma {:induction false} NoMessageRows(rows: seq<Row>)
    requires forall i | 0 <= i < |rows| :: !rows[i].MessageRow?
    ensures MessagesShown(rows) == []
    decreases |rows|
  {
    if rows != [] {
      NoMessageRows(rows[..|rows| - 1]);
    }
  }

  lemma MessagesOfBlock(block: Block)
    ensures MessagesShown(RowsOf(block)) == if block.MessageBlock? then [block.message] else []
  {
    if block.MessageBlock? {
      assert [MessageRow(block.message)][..0] == [];
    } else {
      NoMessageRows(RowsOf(block));
    }
  }

  lemma {:induction false} MessageRowsAreBlocks(blocks: seq<Block>)
    ensures MessagesShown(Rows(blocks)) == MessagesOf(blocks)
    decreases |blocks|
  {
    hide RowsOf, MessagesShown;
    if blocks == [] {
      NoMessageRows([]);
    } else {
      var n := |blocks| - 1;
      MessageRowsAreBlocks(blocks[..n]);
      MessagesShownConcat(Rows(blocks[..n]), RowsOf(blocks[n]));
      MessagesOfBlock(blocks[n]);
    }
  }

  // ----- what the transcript shows

  function GroupsOf(messages: seq<Message>, events: seq<RunEvent>, project: (RunId, seq<RunEvent>) -> Projection)
    : seq<RunGroup>
  {
    CreateGroups(events, MessageIds(messages), project)
  }

  lemma GroupsAreRight(messages: seq<Message>, events: seq<RunEvent>, project: (RunId, seq<RunEvent>) -> Projection)
    ensures DistinctRuns(GroupsOf(messages, events, project))
    ensures PersistedIn(GroupsOf(messages, events, project), messages)
  {
    hide CreateGroups, SortedEventsOf;
    OneGroupPerRun(events, MessageIds(messages), project);
  }

  /** A message with this id is one of the assistant's. */
  predicate AssistantHas(messages: seq<Message>, id: MessageId) {
    exists i | 0 <= i < |messages| :: messages[i].id == id && messages[i].role == Assistant
  }

  /** A run with events has exactly one row, unless the message it completed is listed but is none of the assistant's:
      then it has none, and neither has a run without events. */
  lemma EachRunIsShownOnce(messages: seq<Message>, events: seq<RunEvent>, project: (RunId, seq<RunEvent>) -> Projection,
                           runId: RunId)
    ensures var completed := AssistantMessageId(SortedEventsOf(events, runId));
            CountRunRows(TranscriptRows(messages, events, project), runId) ==
              if HasEvent(events, runId) &&
                 (completed.None? || completed.value !in MessageIds(messages)
                  || AssistantHas(messages, completed.value))
              then 1 else 0
  {
    hide CreateGroups, SortedEventsOf, Assemble, AssistantMessageId, Rows, CountRunRows;
    var groups := GroupsOf(messages, events, project);
    OneGroupPerRun(events, MessageIds(messages), project);
    RunRowsAreBlocks(Assemble(messages, groups).blocks, runId);
    assert HasGroup(groups, runId) <==> HasEvent(events, runId);
    if HasEvent(events, runId) {
      var k :| 0 <= k < |groups| && groups[k].runId == runId;
      GroupShown(messages, groups, groups[k]);
      if groups[k].hasPersistedAssistantMessage {
        BroughtBefore(messages, |messages|, groups[k]);
        assert messages[..|messages|] == messages;
      }
    } else {
      TranscriptTakesFrom(messages, groups);
      NoGroupNoBlock(Assemble(messages, groups).blocks, groups, runId);
    }
  }

  /** A run that is shown nowhere: its only event completes a message that is listed as the user's. */
  lemma RunWithoutRow(project: (RunId, seq<RunEvent>) -> Projection)
    ensures var messages, events := [Message(0, User)], [RunEvent(0, 0, MessageCompleted(Some(0)))];
            HasEvent(events, 0) && CountRunRows(TranscriptRows(messages, events, project), 0) == 0
  {
    hide TranscriptRows, CountRunRows;
    var messages, events := [Message(0, User)], [RunEvent(0, 0, MessageCompleted(Some(0)))];
    assert events[0].runId == 0;
    assert EventsOf(events, 0) == events && SortedEventsOf(events, 0) == events;
    assert messages[0].id == 0;
    EachRunIsShownOnce(messages, events, project, 0);
  }

  /** Right behind the row of a run stand all its process rows, in their order. */
  lemma ProcessRowsStandBehindTheirRun(messages: seq<Message>, events: seq<RunEvent>,
                                       project: (RunId, seq<RunEvent>) -> Projection, k: nat)
    requires k < |TranscriptRows(messages, events, project)| && TranscriptRows(messages, events, project)[k].RunRow?
    ensures var rows := TranscriptRows(messages, events, project);
            Leads(rows, k, GroupOf(events, rows[k].runId, MessageIds(messages), project))
  {
    hide CreateGroups, GroupOf, Assemble, Rows, Leads, CountRunRows;
    var groups, runId := GroupsOf(messages, events, project), TranscriptRows(messages, events, project)[k].runId;
    OneGroupPerRun(events, MessageIds(messages), project);
    TranscriptTakesFrom(messages, groups);
    var blocks := Assemble(messages, groups).blocks;
    RowHasGroup(blocks, groups, k);
    var g :| 0 <= g < |groups| && groups[g].runId == runId;
    RunRowLeads(blocks, groups, groups[g], k);
  }

  lemma {:induction false} RowHasGroup(blocks: seq<Block>, groups: seq<RunGroup>, k: nat)
    requires BlocksFrom(blocks, groups) && k < |Rows(blocks)| && !Rows(blocks)[k].MessageRow?
    ensures var row := Rows(blocks)[k];
            && (row.RunRow? ==> HasGroup(groups, row.runId))
            && (row.ProcessOf? ==> HasGroup(groups, row.ofRun))
    decreases |blocks|
  {
    var n := |blocks| - 1;
    if k < |Rows(blocks[..n])| {
      RowHasGroup(blocks[..n], groups, k);
    }
  }

  /** And they stand nowhere else. */
  lemma NoStrayProcessRows(messages: seq<Message>, events: seq<RunEvent>, project: (RunId, seq<RunEvent>) -> Projection,
                           k: nat)
    requires k < |TranscriptRows(messages, events, project)| && TranscriptRows(messages, events, project)[k].ProcessOf?
    ensures var rows := TranscriptRows(messages, events, project);
            var group := GroupOf(events, rows[k].ofRun, MessageIds(messages), project);
            exists j :: 0 <= j < k <= j + |group.processRows| && rows[j] == RunRow(rows[k].ofRun)
  {
    hide CreateGroups, GroupOf, Assemble, Rows;
    var groups, runId := GroupsOf(messages, events, project), TranscriptRows(messages, events, project)[k].ofRun;
    OneGroupPerRun(events, MessageIds(messages), project);
    TranscriptTakesFrom(messages, groups);
    var blocks := Assemble(messages, groups).blocks;
    RowHasGroup(blocks, groups, k);
    var g :| 0 <= g < |groups| && groups[g].runId == runId;
    ProcessRowFollows(blocks, groups, groups[g], k);
  }

  /** The messages are shown in their order, each once, but for the dropped ones. */
  lemma MessagesAreShownInOrder(messages: seq<Message>, events: seq<RunEvent>,
                                project: (RunId, seq<RunEvent>) -> Projection)
    ensures MessagesShown(TranscriptRows(messages, events, project)) ==
            Shown(messages, |messages|, GroupsOf(messages, events, project))
  {
    hide CreateGroups, AddMessages, Pending, MessagesShown, Rows, MessagesOf, DistinctRuns, PersistedIn;
    var groups := GroupsOf(messages, events, project);
    GroupsAreRight(messages, events, project);
    MessageRowsAreBlocks(Assemble(messages, groups).blocks);
    ShownSoFar(messages, |messages|, groups);
    assert messages[..|messages|] == messages;
    var a := AddMessages(messages, groups);
    PassesAddNoMessage(a, Unused(groups, a.usedRunIds));
  }

  /** A dropped message is one whose run is shown, with streamed message rows. */
  lemma DroppedMessageIsStreamed(messages: seq<Message>, events: seq<RunEvent>,
                                 project: (RunId, seq<RunEvent>) -> Projection, n: nat)
    requires n < |messages| && Dropped(messages, n, GroupsOf(messages, events, project))
    ensures exists k :: 0 <= k < |GroupsOf(messages, events, project)|
              && var group := GroupsOf(messages, events, project)[k];
                 && group.assistantMessageId == Some(messages[n].id) && HasDeltaMessageRows(group)
                 && CountRunRows(TranscriptRows(messages, events, project), group.runId) == 1
  {
    hide CreateGroups, Assemble, CountRunRows, Rows, HasDeltaMessageRows;
    var groups := GroupsOf(messages, events, project);
    GroupsAreRight(messages, events, project);
    var k :| 0 <= k < |groups| && groups[k].assistantMessageId == Some(messages[n].id)
             && HasDeltaMessageRows(groups[k]);
    assert Brings(messages[n], groups[k]);
    GroupShown(messages, groups, groups[k]);
    RunRowsAreBlocks(Assemble(messages, groups).blocks, groups[k].runId);
  }

  // ----- the object

  /** The row array and the set of used run ids that the passes share. */
  class RowAssembler {
    var rows: seq<Row>
    var usedRunIds: set<RunId>
    ghost var blocks: seq<Block>

    ghost predicate Valid()
      reads this
    {
      rows == Rows(blocks)
    }

    ghost function State(): Assembly
      reads this
    {
      Assembly(blocks, usedRunIds)
    }

    constructor ()
      ensures Valid() && State() == Assembly([], {})
    {
      rows, usedRunIds, blocks := [], {}, [];
    }

    method Push(block: Block)
      requires Valid()
      modifies this`rows, this`blocks
      ensures Valid() && blocks == old(blocks) + [block]
    {
      rows := rows + RowsOf(block);
      blocks := blocks + [block];
    }

    method AppendAssistantRunPrelude(groups: seq<RunGroup>)
      requires Valid()
      modifies this
      ensures Valid() && State() == Prelude(old(State()), groups)
    {
      for i := 0 to |groups|
        invariant Valid() && State() == Prelude(old(State()), groups[..i])
      {
        assert groups[..i + 1][..i] == groups[..i];
        if groups[i].runId in usedRunIds || !groups[i].hasPersistedAssistantMessage {
          continue;
        }
        Push(RunBlock(groups[i]));
      }
      assert groups[..|groups|] == groups;
    }

    method AppendRunTailRows(groups: seq<RunGroup>)
      requires Valid()
      modifies this
      ensures Valid() && State() == Tail(old(State()), groups)
    {
      for i := 0 to |groups|
        invariant Valid() && State() == Tail(old(State()), groups[..i])
      {
        assert groups[..i + 1][..i] == groups[..i];
        if groups[i].runId in usedRunIds || !groups[i].hasPersistedAssistantMessage {
          continue;
        }
        Push(ReferencesBlock(groups[i]));
        usedRunIds := usedRunIds + {groups[i].runId};
      }
      assert groups[..|groups|] == groups;
    }

    method AppendPendingRunGroups(groups: seq<RunGroup>)
      requires Valid()
      modifies this
      ensures Valid() && State() == Pending(old(State()), groups)
    {
      for i := 0 to |groups|
        invariant Valid() && State() == Pending(old(State()), groups[..i])
      {
        assert groups[..i + 1][..i] == groups[..i];
        if groups[i].runId in usedRunIds || groups[i].hasPersistedAssistantMessage {
          continue;
        }
        ghost var before := blocks;
        Push(RunBlock(groups[i]));
        Push(ReferencesBlock(groups[i]));
        assert blocks == before + [RunBlock(groups[i]), ReferencesBlock(groups[i])];
        usedRunIds := usedRunIds + {groups[i].runId};
      }
      assert groups[..|groups|] == groups;
    }

    method AppendMessage(message: Message, groups: seq<RunGroup>)
      requires Valid()
      modifies this
      ensures Valid() && State() == AddMessage(old(State()), message, groups)
    {
      hide Prelude, Tail, Pending, Rows;
      var assistantRunGroups := if message.role == Assistant then ByAssistantMessage(groups, message.id) else [];
      if message.role == Assistant {
        AppendAssistantRunPrelude(assistantRunGroups);
        PreludeUsesNone(old(State()), assistantRunGroups);
      }
      if message.role != Assistant || !ShouldSkip(assistantRunGroups, usedRunIds) {
        Push(MessageBlock(message));
      }
      if message.role == Assistant {
        AppendRunTailRows(assistantRunGroups);
      }
      if message.role == User {
        AppendPendingRunGroups(ByUserMessage(groups, message.id));
      }
    }
  }

  lemma {:induction false} PreludeUsesNone(a: Assembly, groups: seq<RunGroup>)
    ensures Prelude(a, groups).usedRunIds == a.usedRunIds
    decreases |groups|
  {
    if groups != [] {
      PreludeUsesNone(a, groups[..|groups| - 1]);
    }
  }

  method CreateChatTranscriptRows(messages: seq<Message>, groups: seq<RunGroup>) returns (rows: seq<Row>)
    ensures rows == Rows(Assemble(messages, groups).blocks)
  {
    hide AddMessage, Pending, Rows;
    var assembler := new RowAssembler();
    for i := 0 to |messages|
      invariant fresh(assembler) && assembler.Valid()
      invariant assembler.State() == AddMessages(messages[..i], groups)
    {
      assert messages[..i + 1][..i] == messages[..i];
      assembler.AppendMessage(messages[i], groups);
    }
    assert messages[..|messages|] == messages;
    assembler.AppendPendingRunGroups(Unused(groups, assembler.usedRunIds));
    rows := assembler.rows;
  }
}
