/** The desktop composer's drafts: one stored draft per target, the draft on screen, and the send that is on its way. */
module DesktopDraft {
  import opened Wrappers

  type AttachmentId = nat
  type RequestId = nat
  type Fingerprint = nat

  const ATTACHMENT_COUNT_LIMIT: nat := 16
  const ATTACHMENT_TOTAL_BYTES_LIMIT: nat := 32 * 1024 * 1024

  datatype Attachment = Attachment(id: AttachmentId, sizeBytes: nat)

  /** What a draft belongs to. */
  datatype TargetKey = Global | Project(root: nat) | Conversation(id: nat)

  datatype Snapshot = Snapshot(
    attachments: seq<Attachment>,
    composerContent: Option<string>,
    content: string,
    requestFingerprint: Option<Fingerprint>,
    requestId: Option<RequestId>
  )

  const EMPTY_DRAFT: Snapshot := Snapshot([], None, "", None, None)

  datatype Sending = Sending(sourceKey: TargetKey, sentDraft: Snapshot, navigation: nat)

  /** The draft store, the draft on screen and the send on its way. sends and usedIds are history: the drafts prepared
      for sending, in order, and every request id handed out. */
  datatype DraftState = DraftState(
    drafts: map<TargetKey, Snapshot>,
    attachments: seq<Attachment>,
    composerContent: Option<string>,
    content: string,
    targetKey: TargetKey,
    navigation: nat,
    sending: Option<Sending>,
    sends: seq<Snapshot>,
    usedIds: set<RequestId>
  )

  // ----- attaching

  function TotalBytes(attachments: seq<Attachment>): nat {
    if attachments == [] then 0
    else TotalBytes(attachments[..|attachments| - 1]) + attachments[|attachments| - 1].sizeBytes
  }

  predicate WithinLimits(attachments: seq<Attachment>) {
    |attachments| <= ATTACHMENT_COUNT_LIMIT && TotalBytes(attachments) <= ATTACHMENT_TOTAL_BYTES_LIMIT
  }

  predicate HasRoom(accepted: seq<Attachment>, attachment: Attachment) {
    |accepted| < ATTACHMENT_COUNT_LIMIT && TotalBytes(accepted) + attachment.sizeBytes <= ATTACHMENT_TOTAL_BYTES_LIMIT
  }

  /** The attachments after those that have room, each at its turn, have been taken. */
  function Accepted(current: seq<Attachment>, incoming: seq<Attachment>): seq<Attachment> {
    if incoming == [] then current
    else
      var n := |incoming| - 1;
      var before := Accepted(current, incoming[..n]);
      if HasRoom(before, incoming[n]) then before + [incoming[n]] else before
  }

  /** The incoming attachments that are given back. */
  function Refused(current: seq<Attachment>, incoming: seq<Attachment>): seq<AttachmentId> {
    if incoming == [] then []
    else
      var n := |incoming| - 1;
      var before := Refused(current, incoming[..n]);
      if HasRoom(Accepted(current, incoming[..n]), incoming[n]) then before else before + [incoming[n].id]
  }

  function Select(incoming: seq<Attachment>, kept: seq<bool>, wanted: bool): seq<Attachment>
    requires |incoming| == |kept|
  {
    if incoming == [] then []
    else
      var n := |incoming| - 1;
      Select(incoming[..n], kept[..n], wanted) + if kept[n] == wanted then [incoming[n]] else []
  }

  function Ids(attachments: seq<Attachment>): (ids: seq<AttachmentId>)
    ensures |ids| == |attachments|
  {
    seq(|attachments|, i requires 0 <= i < |attachments| => attachments[i].id)
  }

  /** For each incoming attachment, whether it is kept. */
  function Kept(current: seq<Attachment>, incoming: seq<Attachment>): (kept: seq<bool>)
    ensures |kept| == |incoming|
  {
    if incoming == [] then []
    else
      var n := |incoming| - 1;
      Kept(current, incoming[..n]) + [HasRoom(Accepted(current, incoming[..n]), incoming[n])]
  }

  /** Each offered attachment is kept once or given back once, both in the order of the offer, behind what was there. */
  lemma {:induction false} KeptOrRefused(current: seq<Attachment>, incoming: seq<Attachment>)
    ensures var kept := Kept(current, incoming);
            && Accepted(current, incoming) == current + Select(incoming, kept, true)
            && Refused(current, incoming) == Ids(Select(incoming, kept, false))
    decreases |incoming|
  {
    if incoming != [] {
      var n := |incoming| - 1;
      KeptOrRefused(current, incoming[..n]);
      var kept := Kept(current, incoming);
      assert kept[..n] == Kept(current, incoming[..n]);
      var before := Select(incoming[..n], kept[..n], false);
      assert Ids(before + [incoming[n]]) == Ids(before) + [incoming[n].id];
    }
  }

  /** A draft within the limits stays within them. */
  lemma {:induction false} AcceptedWithinLimits(current: seq<Attachment>, incoming: seq<Attachment>)
    requires WithinLimits(current)
    ensures WithinLimits(Accepted(current, incoming))
    decreases |incoming|
  {
    if incoming != [] {
      AcceptedWithinLimits(current, incoming[..|incoming| - 1]);
    }
  }

  /** An attachment is refused exactly when it does not fit behind what was kept before it. */
  lemma {:induction false} KeptWhenItFits(current: seq<Attachment>, incoming: seq<Attachment>, i: nat)
    requires i < |incoming|
    ensures Kept(current, incoming)[i] <==> HasRoom(Accepted(current, incoming[..i]), incoming[i])
    decreases |incoming|
  {
    hide HasRoom, Accepted;
    var n := |incoming| - 1;
    if i < n {
      assert incoming[..n][..i] == incoming[..i];
      KeptWhenItFits(current, incoming[..n], i);
    }
  }

  lemma {:induction false} AcceptedGrows(current: seq<Attachment>, incoming: seq<Attachment>, i: nat)
    requires i <= |incoming|
    ensures |Accepted(current, incoming[..i])| <= |Accepted(current, incoming)|
    ensures TotalBytes(Accepted(current, incoming[..i])) <= TotalBytes(Accepted(current, incoming))
    decreases |incoming|
  {
    var n := |incoming| - 1;
    if i == |incoming| {
      assert incoming[..i] == incoming;
    } else {
      AcceptedGrows(current, incoming[..n], i);
      assert incoming[..n][..i] == incoming[..i];
    }
  }

  /** Nothing is refused that would fit into what is kept in the end. */
  lemma RefusedDoesNotFit(current: seq<Attachment>, incoming: seq<Attachment>, i: nat)
    requires i < |incoming| && !Kept(current, incoming)[i]
    ensures !HasRoom(Accepted(current, incoming), incoming[i])
  {
    hide Accepted, Kept, TotalBytes;
    KeptWhenItFits(current, incoming, i);
    AcceptedGrows(current, incoming, i);
  }

  lemma {:induction false} RemovedWithinLimits(attachments: seq<Attachment>, index: nat)
    requires index < |attachments|
    ensures TotalBytes(attachments[..index] + attachments[index + 1..]) + attachments[index].sizeBytes ==
            TotalBytes(attachments)
    decreases |attachments|
  {
    var n := |attachments| - 1;
    var rest := attachments[..index] + attachments[index + 1..];
    if index == n {
      assert rest == attachments[..n];
    } else {
      RemovedWithinLimits(attachments[..n], index);
      assert rest[..n - 1] == attachments[..n][..index] + attachments[..n][index + 1..];
    }
  }

  // ----- the operations

  function Load(drafts: map<TargetKey, Snapshot>, key: TargetKey): Snapshot {
    if key in drafts then drafts[key] else EMPTY_DRAFT
  }

  function SaveCurrentDraft(s: DraftState, resetRequestId: bool): DraftState {
    var current := Load(s.drafts, s.targetKey);
    s.(drafts := s.drafts[s.targetKey := Snapshot(
         s.attachments, s.composerContent, s.content,
         if resetRequestId then None else current.requestFingerprint,
         if resetRequestId then None else current.requestId)])
  }

  function RestoreCurrentDraft(s: DraftState): DraftState {
    var stored := Load(s.drafts, s.targetKey);
    s.(attachments := stored.attachments, composerContent := stored.composerContent, content := stored.content)
  }

  function PrepareSend(s: DraftState, requestId: RequestId, fingerprint: Fingerprint): (DraftState, Snapshot) {
    var draft := Load(s.drafts, s.targetKey);
    if draft.requestId.Some? && draft.requestFingerprint == Some(fingerprint) then (s, draft)
    else
      var prepared := draft.(requestFingerprint := Some(fingerprint), requestId := Some(requestId));
      (s.(drafts := s.drafts[s.targetKey := prepared]), prepared)
  }

  predicate DraftsMatch(left: Snapshot, right: Snapshot) {
    && left.content == right.content
    && left.composerContent == right.composerContent
    && Ids(left.attachments) == Ids(right.attachments)
  }

  /** The comparison that a send in an existing conversation uses: it does not look at the composer content. */
  predicate TextsMatch(left: Snapshot, right: Snapshot) {
    left.content == right.content && Ids(left.attachments) == Ids(right.attachments)
  }

  function ReconcileAfterSend(drafts: map<TargetKey, Snapshot>, sourceKey: TargetKey, conversationKey: TargetKey,
                              sentDraft: Snapshot): map<TargetKey, Snapshot>
  {
    var current := Load(drafts, sourceKey);
    if DraftsMatch(sentDraft, current) then drafts - {sourceKey}
    else (drafts - {sourceKey})[conversationKey := current]
  }

  datatype Event =
    | Append(incoming: seq<Attachment>)
    | Remove(index: nat)
    | Update(content: string)
    | UpdateComposer(content: string, composerContent: Option<string>)
    | Navigate(key: TargetKey)
    | Delete(conversationId: nat)
    | Send(requestId: RequestId, fingerprint: Fingerprint)
    | SendAccepted(conversationId: nat)
    | SendFailed

  /** The screen still shows the target that the send started from, and has shown it all the time. */
  predicate Stayed(s: DraftState)
    requires s.sending.Some?
  {
    s.sending.value.navigation == s.navigation && s.sending.value.sourceKey == s.targetKey
  }

  /** The store when a send has been accepted. */
  function SettledDrafts(s: DraftState, conversationId: nat): map<TargetKey, Snapshot>
    requires s.sending.Some?
  {
    var sending := s.sending.value;
    if !sending.sourceKey.Conversation? then
      ReconcileAfterSend(s.drafts, sending.sourceKey, Conversation(conversationId), sending.sentDraft)
    else if TextsMatch(sending.sentDraft, Load(s.drafts, sending.sourceKey)) then
      s.drafts - {sending.sourceKey}
    else
      s.drafts
  }

  /** Request ids are fresh. A send in a conversation is answered for that conversation. */
  predicate Enabled(s: DraftState, event: Event) {
    match event
    case Send(requestId, _) => s.sending.None? && requestId !in s.usedIds
    case SendAccepted(id) =>
      s.sending.Some? && (s.sending.value.sourceKey.Conversation? ==> s.sending.value.sourceKey == Conversation(id))
    case SendFailed => s.sending.Some?
    case _ => true
  }

  function Next(s: DraftState, event: Event): DraftState
    requires Enabled(s, event)
  {
    match event
    case Append(incoming) => SaveCurrentDraft(s.(attachments := Accepted(s.attachments, incoming)), true)
    case Remove(index) =>
      if index >= |s.attachments| then s
      else SaveCurrentDraft(s.(attachments := s.attachments[..index] + s.attachments[index + 1..]), true)
    case Update(content) => SaveCurrentDraft(s.(content := content, composerContent := None), true)
    case UpdateComposer(content, value) => SaveCurrentDraft(s.(content := content, composerContent := value), true)
    case Navigate(key) =>
      RestoreCurrentDraft(SaveCurrentDraft(s, false).(navigation := s.navigation + 1, targetKey := key))
    case Delete(id) =>
      var cleared := s.(drafts := s.drafts - {Conversation(id)});
      if s.targetKey != Conversation(id) then cleared
      else RestoreCurrentDraft(cleared.(navigation := s.navigation + 1, targetKey := Global))
    case Send(requestId, fingerprint) =>
      var (prepared, sent) := PrepareSend(SaveCurrentDraft(s, false), requestId, fingerprint);
      prepared.(sending := Some(Sending(s.targetKey, sent, s.navigation)), sends := s.sends + [sent],
                usedIds := s.usedIds + {requestId})
    case SendAccepted(id) =>
      var settled := s.(drafts := SettledDrafts(s, id), sending := None);
      if Stayed(s) then RestoreCurrentDraft(settled.(targetKey := Conversation(id))) else settled
    case SendFailed => s.(sending := None)
  }

  // ----- what every step keeps

  /** The draft on screen is the stored one, unless the store has none for the target, or has got one without a
      request id from a first send that created the conversation on the screen. */
  predicate ScreenInv(s: DraftState) {
    s.targetKey in s.drafts ==>
      || Shows(s, s.drafts[s.targetKey])
      || (s.targetKey.Conversation? && s.drafts[s.targetKey].requestId.None?)
  }

  /** While a draft is being sent, it is stored as it was sent, or edited, which dropped its request id. */
  predicate SendingInv(s: DraftState) {
    s.sending.Some? && s.sending.value.sourceKey in s.drafts ==>
      || s.drafts[s.sending.value.sourceKey].requestId.None?
      || s.drafts[s.sending.value.sourceKey] == s.sending.value.sentDraft
  }

  predicate Shows(s: DraftState, draft: Snapshot) {
    s.attachments == draft.attachments && s.composerContent == draft.composerContent && s.content == draft.content
  }

  ghost predicate LimitsInv(s: DraftState) {
    WithinLimits(s.attachments) && forall key | key in s.drafts :: WithinLimits(s.drafts[key].attachments)
  }

  /** A stored draft that carries a request id is what every send with this id has sent. */
  ghost predicate StoredInv(s: DraftState) {
    && (forall key | key in s.drafts && s.drafts[key].requestId.Some? ::
          && s.drafts[key].requestId.value in s.usedIds
          && forall n | 0 <= n < |s.sends| && s.sends[n].requestId == s.drafts[key].requestId ::
             s.sends[n] == s.drafts[key])
    && (forall key, other | key in s.drafts && other in s.drafts && key != other && s.drafts[key].requestId.Some? ::
          s.drafts[key].requestId != s.drafts[other].requestId)
  }

  ghost predicate SendsInv(s: DraftState) {
    && (forall n | 0 <= n < |s.sends| :: s.sends[n].requestId.Some? && s.sends[n].requestId.value in s.usedIds)
    && (forall m, n | 0 <= m < n < |s.sends| && s.sends[m].requestId == s.sends[n].requestId ::
          s.sends[m] == s.sends[n])
  }

  ghost predicate Inv(s: DraftState) {
    ScreenInv(s) && SendingInv(s) && LimitsInv(s) && StoredInv(s) && SendsInv(s)
  }

  /** Drafts read from the workspace state at the start are within the limits and have request ids of their own. */
  ghost predicate Initial(s: DraftState) {
    Inv(s) && s.sending.None? && s.sends == [] && s == RestoreCurrentDraft(s)
  }

  /** run holds the states that events lead through. */
  ghost predicate IsRun(run: seq<DraftState>, events: seq<Event>) {
    && |run| == |events| + 1
    && Initial(run[0])
    && forall i | 0 <= i < |events| :: Enabled(run[i], events[i]) && run[i + 1] == Next(run[i], events[i])
  }

  lemma SaveKeepsInv(s: DraftState)
    requires Inv(s)
    ensures Inv(SaveCurrentDraft(s, false))
    ensures s.targetKey in SaveCurrentDraft(s, false).drafts
    ensures Shows(s, SaveCurrentDraft(s, false).drafts[s.targetKey])
  {
    if s.targetKey in s.drafts && Shows(s, s.drafts[s.targetKey]) {
      assert SaveCurrentDraft(s, false).drafts == s.drafts;
    }
  }

  lemma EditKeepsInv(s: DraftState, attachments: seq<Attachment>, composerContent: Option<string>, content: string)
    requires Inv(s) && WithinLimits(attachments)
    ensures Inv(SaveCurrentDraft(s.(attachments := attachments, composerContent := composerContent,
                                    content := content), true))
  {
  }

  lemma RestoreKeepsInv(s: DraftState)
    requires SendingInv(s) && LimitsInv(s) && StoredInv(s) && SendsInv(s)
    ensures Inv(RestoreCurrentDraft(s))
  {
    assert WithinLimits([]);
  }

  lemma DropKeepsStored(s: DraftState, key: TargetKey)
    requires Inv(s)
    ensures var s' := s.(drafts := s.drafts - {key});
            Inv(s')
  {
  }

  lemma SendKeepsStored(s: DraftState, requestId: RequestId, fingerprint: Fingerprint)
    requires StoredInv(s) && SendsInv(s) && s.targetKey in s.drafts && requestId !in s.usedIds
    ensures var (s', sent) := PrepareSend(s, requestId, fingerprint);
            var s'' := s'.(sends := s.sends + [sent], usedIds := s.usedIds + {requestId});
            StoredInv(s'') && SendsInv(s'')
  {
  }

  lemma SendKeepsInv(s: DraftState, requestId: RequestId, fingerprint: Fingerprint)
    requires Inv(s) && s.targetKey in s.drafts && Shows(s, s.drafts[s.targetKey]) && requestId !in s.usedIds
    ensures var (s', sent) := PrepareSend(s, requestId, fingerprint);
            Inv(s'.(sending := Some(Sending(s.targetKey, sent, s.navigation)), sends := s.sends + [sent],
                    usedIds := s.usedIds + {requestId}))
  {
    SendKeepsStored(s, requestId, fingerprint);
  }

  lemma MoveKeepsStored(s: DraftState, sourceKey: TargetKey, conversationKey: TargetKey)
    requires Inv(s)
    ensures var s' := s.(drafts := (s.drafts - {sourceKey})[conversationKey := Load(s.drafts, sourceKey)]);
            LimitsInv(s') && StoredInv(s') && SendsInv(s')
  {
    assert WithinLimits([]);
  }

  lemma RemoveKeepsInv(s: DraftState, index: nat)
    requires Inv(s)
    ensures Inv(Next(s, Remove(index)))
  {
    hide ScreenInv, StoredInv, SendsInv;
    if index < |s.attachments| {
      RemovedWithinLimits(s.attachments, index);
      EditKeepsInv(s, s.attachments[..index] + s.attachments[index + 1..], s.composerContent, s.content);
    }
  }

  /** A draft that does not match what was sent has been edited. */
  lemma MovedDraftIsEdited(s: DraftState)
    requires SendingInv(s) && s.sending.Some?
    ensures var current := Load(s.drafts, s.sending.value.sourceKey);
            !DraftsMatch(s.sending.value.sentDraft, current) ==> current.requestId.None?
  {
  }

  lemma AcceptedKeepsInv(s: DraftState, conversationId: nat)
    requires Inv(s) && Enabled(s, SendAccepted(conversationId))
    ensures Inv(Next(s, SendAccepted(conversationId)))
  {
    hide WithinLimits, DraftsMatch, TextsMatch, RestoreCurrentDraft;
    var source := s.sending.value.sourceKey;
    DropKeepsStored(s, source);
    MoveKeepsStored(s, source, Conversation(conversationId));
    var settled := s.(drafts := SettledDrafts(s, conversationId), sending := None);
    assert LimitsInv(settled) && StoredInv(settled) && SendsInv(settled);
    MovedDraftIsEdited(s);
    if Stayed(s) {
      RestoreKeepsInv(settled.(targetKey := Conversation(conversationId)));
    }
  }

  lemma DeleteKeepsInv(s: DraftState, conversationId: nat)
    requires Inv(s)
    ensures Inv(Next(s, Delete(conversationId)))
  {
    hide WithinLimits;
    DropKeepsStored(s, Conversation(conversationId));
    var cleared := s.(drafts := s.drafts - {Conversation(conversationId)});
    if s.targetKey == Conversation(conversationId) {
      RestoreKeepsInv(cleared.(navigation := s.navigation + 1, targetKey := Global));
    }
  }

  lemma InvStep(s: DraftState, event: Event)
    requires Inv(s) && Enabled(s, event)
    ensures Inv(Next(s, event))
  {
    hide WithinLimits, PrepareSend, SettledDrafts, SaveCurrentDraft, RestoreCurrentDraft;
    match event
    case Append(incoming) =>
      AcceptedWithinLimits(s.attachments, incoming);
      EditKeepsInv(s, Accepted(s.attachments, incoming), s.composerContent, s.content);
    case Remove(index) => RemoveKeepsInv(s, index);
    case Update(content) => EditKeepsInv(s, s.attachments, None, content);
    case UpdateComposer(content, value) => EditKeepsInv(s, s.attachments, value, content);
    case Navigate(key) =>
      SaveKeepsInv(s);
      RestoreKeepsInv(SaveCurrentDraft(s, false).(navigation := s.navigation + 1, targetKey := key));
    case Delete(id) => DeleteKeepsInv(s, id);
    case Send(requestId, fingerprint) =>
      SaveKeepsInv(s);
      SavedFrame(s);
      SendKeepsInv(SaveCurrentDraft(s, false), requestId, fingerprint);
    case SendAccepted(id) => AcceptedKeepsInv(s, id);
    case SendFailed =>
  }

  lemma SavedFrame(s: DraftState)
    ensures SaveCurrentDraft(s, false) == s.(drafts := SaveCurrentDraft(s, false).drafts)
  {
  }

  lemma {:induction false} InvHolds(run: seq<DraftState>, events: seq<Event>, i: nat)
    requires IsRun(run, events) && i < |run|
    ensures Inv(run[i])
  {
    hide Inv, Next;
    if i > 0 {
      InvHolds(run, events, i - 1);
      InvStep(run[i - 1], events[i - 1]);
    }
  }

  // ----- what holds in every run

  /** The draft on screen and every stored draft stay within 16 attachments and 32 MiB. */
  lemma DraftsStayWithinLimits(run: seq<DraftState>, events: seq<Event>, i: nat)
    requires IsRun(run, events) && i < |run|
    ensures WithinLimits(run[i].attachments)
    ensures forall key | key in run[i].drafts :: WithinLimits(run[i].drafts[key].attachments)
  {
    InvHolds(run, events, i);
  }

  /** One request id never stands for two different drafts, whatever is typed, attached, opened or sent in between. */
  lemma OneRequestOneDraft(run: seq<DraftState>, events: seq<Event>, i: nat, m: nat, n: nat)
    requires IsRun(run, events) && i < |run| && m < |run[i].sends| && n < |run[i].sends|
    requires run[i].sends[m].requestId == run[i].sends[n].requestId
    ensures run[i].sends[m] == run[i].sends[n]
  {
    InvHolds(run, events, i);
  }

  /** The event may change the draft stored for the target. */
  predicate Touches(s: DraftState, event: Event, key: TargetKey) {
    match event
    case Append(_) => s.targetKey == key
    case Remove(index) => s.targetKey == key && index < |s.attachments|
    case Update(_) => s.targetKey == key
    case UpdateComposer(_, _) => s.targetKey == key
    case Navigate(_) => s.targetKey == key && !Shows(s, Load(s.drafts, key))
    case Delete(id) => key == Conversation(id)
    case Send(_, fingerprint) =>
      && s.targetKey == key
      && !(Load(s.drafts, key).requestId.Some? && Load(s.drafts, key).requestFingerprint == Some(fingerprint))
    case SendAccepted(id) => s.sending.Some? && (s.sending.value.sourceKey == key || key == Conversation(id))
    case SendFailed => false
  }

  lemma UntouchedDraftStays(s: DraftState, event: Event, key: TargetKey)
    requires Inv(s) && Enabled(s, event) && key in s.drafts && !Touches(s, event, key)
    ensures key in Next(s, event).drafts && Next(s, event).drafts[key] == s.drafts[key]
  {
    hide LimitsInv, StoredInv, SendsInv, Accepted;
  }

  lemma {:induction false} UntouchedDraftStaysLong(run: seq<DraftState>, events: seq<Event>, i: nat, j: nat,
                                                   key: TargetKey)
    requires IsRun(run, events) && i <= j < |run| && key in run[i].drafts
    requires forall k | i <= k < j :: !Touches(run[k], events[k], key)
    ensures key in run[j].drafts && run[j].drafts[key] == run[i].drafts[key]
    decreases j
  {
    hide Inv, Next, Touches;
    if i < j {
      UntouchedDraftStaysLong(run, events, i, j - 1, key);
      InvHolds(run, events, j - 1);
      UntouchedDraftStays(run[j - 1], events[j - 1], key);
    }
  }

  /** Sending a draft again with the same fingerprint, unedited, sends the same draft with the same request id, however
      the first send ended and whatever was done to other drafts meanwhile. */
  lemma RetryReusesRequest(run: seq<DraftState>, events: seq<Event>, i: nat, j: nat)
    requires IsRun(run, events) && i < j < |events|
    requires events[i].Send? && events[j].Send? && events[j].fingerprint == events[i].fingerprint
    requires run[j].targetKey == run[i].targetKey
    requires forall k | i < k < j :: !Touches(run[k], events[k], run[i].targetKey)
    ensures run[j + 1].sends == run[j].sends + [run[i + 1].sends[|run[i].sends|]]
  {
    hide LimitsInv, StoredInv, SendsInv, Accepted;
    var key := run[i].targetKey;
    UntouchedDraftStaysLong(run, events, i + 1, j, key);
    InvHolds(run, events, j);
  }

  /** The event edits the draft on the screen. */
  predicate IsEdit(s: DraftState, event: Event) {
    event.Append? || event.Update? || event.UpdateComposer? || (event.Remove? && event.index < |s.attachments|)
  }

  lemma EditIsStored(s: DraftState, event: Event)
    requires IsEdit(s, event)
    ensures var s' := Next(s, event);
            && s'.targetKey == s.targetKey && s.targetKey in s'.drafts
            && s'.drafts[s.targetKey].requestId.None? && Shows(s', s'.drafts[s.targetKey])
  {
    hide Accepted;
  }

  lemma UntouchedStaysShown(s: DraftState, event: Event, key: TargetKey)
    requires Inv(s) && Enabled(s, event) && key in s.drafts && !Touches(s, event, key)
    requires s.targetKey == key ==> Shows(s, s.drafts[key])
    ensures key in Next(s, event).drafts
    ensures Next(s, event).targetKey == key ==> Shows(Next(s, event), Next(s, event).drafts[key])
  {
    hide LimitsInv, StoredInv, SendsInv, Accepted;
  }

  lemma {:induction false} UntouchedStaysShownLong(run: seq<DraftState>, events: seq<Event>, i: nat, j: nat,
                                                   key: TargetKey)
    requires IsRun(run, events) && i <= j < |run| && key in run[i].drafts
    requires run[i].targetKey == key ==> Shows(run[i], run[i].drafts[key])
    requires forall k | i <= k < j :: !Touches(run[k], events[k], key)
    ensures key in run[j].drafts && (run[j].targetKey == key ==> Shows(run[j], run[j].drafts[key]))
    decreases j
  {
    hide Inv, Next, Touches;
    if i < j {
      UntouchedStaysShownLong(run, events, i, j - 1, key);
      InvHolds(run, events, j - 1);
      UntouchedStaysShown(run[j - 1], events[j - 1], key);
    }
  }

  /** An edit makes the next send of its draft a new request with what the edit left on the screen, whatever was done to
      other drafts meanwhile. */
  lemma EditMakesNewRequest(run: seq<DraftState>, events: seq<Event>, i: nat, j: nat)
    requires IsRun(run, events) && i < j < |events| && IsEdit(run[i], events[i]) && events[j].Send?
    requires run[j].targetKey == run[i].targetKey
    requires forall k | i < k < j :: !Touches(run[k], events[k], run[i].targetKey)
    ensures |run[j + 1].sends| == |run[j].sends| + 1
    ensures var sent := run[j + 1].sends[|run[j].sends|];
            sent.requestId == Some(events[j].requestId) && Shows(run[i + 1], sent)
  {
    hide Inv, Accepted;
    var key := run[i].targetKey;
    EditIsStored(run[i], events[i]);
    UntouchedDraftStaysLong(run, events, i + 1, j, key);
    UntouchedStaysShownLong(run, events, i + 1, j, key);
    FreshSend(run[j], events[j].requestId, events[j].fingerprint);
  }

  lemma FreshSend(s: DraftState, requestId: RequestId, fingerprint: Fingerprint)
    requires Enabled(s, Send(requestId, fingerprint))
    requires s.targetKey in s.drafts && Shows(s, s.drafts[s.targetKey]) && s.drafts[s.targetKey].requestId.None?
    ensures var sends := Next(s, Send(requestId, fingerprint)).sends;
            && |sends| == |s.sends| + 1
            && sends[|s.sends|].requestId == Some(requestId) && Shows(s, sends[|s.sends|])
  {
  }

  /** When a first send is accepted, a draft edited meanwhile moves to the new conversation, and stays on the screen if
      that has shown it all the time, in place of any draft stored for it; an unedited draft is gone. Nothing else in
      the store changes. */
  lemma FirstSendSettles(s: DraftState, id: nat)
    requires Inv(s) && Enabled(s, SendAccepted(id)) && !s.sending.value.sourceKey.Conversation?
    requires s.sending.value.sourceKey in s.drafts
    ensures var source, s' := s.sending.value.sourceKey, Next(s, SendAccepted(id));
            && source !in s'.drafts
            && (forall key | key != source
                             && (key != Conversation(id) || DraftsMatch(s.sending.value.sentDraft, s.drafts[source])) ::
                  (key in s'.drafts <==> key in s.drafts) && (key in s.drafts ==> s'.drafts[key] == s.drafts[key]))
            && (!DraftsMatch(s.sending.value.sentDraft, s.drafts[source]) ==>
                  && Conversation(id) in s'.drafts
                  && s'.drafts[Conversation(id)] == s.drafts[source]
                  && (Stayed(s) ==>
                        s'.targetKey == Conversation(id) && Shows(s', s.drafts[source]) && Shows(s, s.drafts[source])))
  {
    hide LimitsInv, StoredInv, SendsInv;
  }

  lemma {:induction false} SendingStays(run: seq<DraftState>, events: seq<Event>, i: nat, j: nat)
    requires IsRun(run, events) && i < j < |run| && events[i].Send?
    requires forall k | i < k < j :: !events[k].SendAccepted? && !events[k].SendFailed?
    ensures run[j].sending == Some(Sending(run[i].targetKey, run[i + 1].sends[|run[i].sends|], run[i].navigation))
    ensures |run[i + 1].sends| == |run[i].sends| + 1
    decreases j
  {
    hide Inv, Accepted, Initial;
    if i + 1 < j {
      SendingStays(run, events, i, j - 1);
      assert !events[j - 1].Send?;
    }
  }

  /** What was typed last during a first send is what the new conversation's draft holds when the send is accepted,
      whatever was done to other drafts meanwhile; unless the edits have restored just what was sent. */
  lemma TypedTextSurvives(run: seq<DraftState>, events: seq<Event>, i: nat, edit: nat, j: nat)
    requires IsRun(run, events) && i < edit < j < |events|
    requires events[i].Send? && !run[i].targetKey.Conversation? && events[j].SendAccepted?
    requires forall k | i < k < j :: !events[k].SendAccepted? && !events[k].SendFailed?
    requires IsEdit(run[edit], events[edit]) && run[edit].targetKey == run[i].targetKey
    requires forall k | edit < k < j :: !Touches(run[k], events[k], run[i].targetKey)
    ensures |run[i + 1].sends| == |run[i].sends| + 1
    ensures run[i].targetKey in run[edit + 1].drafts
    ensures var sent, typed := run[i + 1].sends[|run[i].sends|], run[edit + 1].drafts[run[i].targetKey];
            var conversation := Conversation(events[j].conversationId);
            && Shows(run[edit + 1], typed)
            && run[i].targetKey !in run[j + 1].drafts
            && (!DraftsMatch(sent, typed) ==>
                  conversation in run[j + 1].drafts && run[j + 1].drafts[conversation] == typed)
            && (!DraftsMatch(sent, typed) && Stayed(run[j]) ==>
                  run[j + 1].targetKey == conversation && Shows(run[j + 1], typed))
  {
    hide Inv, Accepted, Initial, Next;
    var source := run[i].targetKey;
    EditIsStored(run[edit], events[edit]);
    UntouchedDraftStaysLong(run, events, edit + 1, j, source);
    SendingStays(run, events, i, j);
    InvHolds(run, events, j);
    FirstSendSettles(run[j], events[j].conversationId);
  }

  /** A draft that the new conversation has already is still stored after the accept of the first send exactly if the
      sent draft has not been edited, or has been edited to the same. */
  lemma OlderDraftSurvives(s: DraftState, id: nat)
    requires Enabled(s, SendAccepted(id)) && !s.sending.value.sourceKey.Conversation? && Conversation(id) in s.drafts
    ensures var current, older := Load(s.drafts, s.sending.value.sourceKey), s.drafts[Conversation(id)];
            var s' := Next(s, SendAccepted(id));
            Conversation(id) in s'.drafts && (s'.drafts[Conversation(id)] == older
              <==> DraftsMatch(s.sending.value.sentDraft, current) || current == older)
  {
  }

  // ----- how long a moved draft stays

  /** The screen shows something else for the target than what is stored for it, a draft never sent. */
  predicate IsStale(s: DraftState, key: TargetKey, stored: Snapshot) {
    && s.targetKey == key && s.sending.None? && key in s.drafts && s.drafts[key] == stored
    && stored.requestId.None? && !Shows(s, stored)
  }

  lemma StaleStays(s: DraftState, event: Event, key: TargetKey, stored: Snapshot)
    requires IsStale(s, key, stored) && Enabled(s, event) && !Touches(s, event, key) && key.Conversation?
    ensures IsStale(Next(s, event), key, stored)
  {
    hide Accepted;
  }

  /** Leaving the target saves the screen over what was stored. */
  lemma LeavingSavesStale(s: DraftState, other: TargetKey, key: TargetKey, stored: Snapshot)
    requires IsStale(s, key, stored)
    ensures var s' := Next(s, Navigate(other));
            && key in s'.drafts && s'.drafts[key] != stored && Shows(s, s'.drafts[key])
            && (s'.targetKey == key ==> Shows(s', s'.drafts[key]))
  {
  }

  ghost predicate Leaves(events: seq<Event>, i: nat, j: nat)
    requires j <= |events|
  {
    exists k :: i <= k < j && events[k].Navigate?
  }

  lemma {:induction false} StaleUntilLeft(run: seq<DraftState>, events: seq<Event>, i: nat, j: nat, key: TargetKey,
                                          stored: Snapshot)
    requires IsRun(run, events) && i <= j < |run| && key.Conversation? && IsStale(run[i], key, stored)
    requires forall k | i <= k < j && Touches(run[k], events[k], key) :: events[k].Navigate?
    ensures if Leaves(events, i, j)
            then key in run[j].drafts && run[j].drafts[key] != stored
                 && (run[j].targetKey == key ==> Shows(run[j], run[j].drafts[key]))
            else IsStale(run[j], key, stored)
    decreases j
  {
    hide IsStale, Touches, Next, Inv, Initial, Shows;
    if i < j {
      var last := j - 1;
      StaleUntilLeft(run, events, i, last, key, stored);
      assert Leaves(events, i, j) <==> Leaves(events, i, last) || events[last].Navigate?;
      if Leaves(events, i, last) {
        InvHolds(run, events, last);
        ShownIsNotLeft(run[last], events[last], key);
        UntouchedDraftStays(run[last], events[last], key);
        UntouchedStaysShown(run[last], events[last], key);
      } else if events[last].Navigate? {
        LeavingSavesStale(run[last], events[last].key, key, stored);
      } else {
        StaleStays(run[last], events[last], key, stored);
      }
    }
  }

  lemma ShownIsNotLeft(s: DraftState, event: Event, key: TargetKey)
    requires key in s.drafts && (s.targetKey == key ==> Shows(s, s.drafts[key]))
    ensures event.Navigate? ==> !Touches(s, event, key)
  {
  }

  lemma {:induction false} ShownStays(run: seq<DraftState>, events: seq<Event>, i: nat, j: nat, key: TargetKey)
    requires IsRun(run, events) && i <= j < |run| && key in run[i].drafts
    requires run[i].targetKey == key ==> Shows(run[i], run[i].drafts[key])
    requires forall k | i <= k < j && Touches(run[k], events[k], key) :: events[k].Navigate?
    ensures key in run[j].drafts && run[j].drafts[key] == run[i].drafts[key]
    ensures run[j].targetKey == key ==> Shows(run[j], run[j].drafts[key])
    decreases j
  {
    hide Touches, Next, Inv, Initial, Shows;
    if i < j {
      ShownStays(run, events, i, j - 1, key);
      InvHolds(run, events, j - 1);
      ShownIsNotLeft(run[j - 1], events[j - 1], key);
      UntouchedDraftStays(run[j - 1], events[j - 1], key);
      UntouchedStaysShown(run[j - 1], events[j - 1], key);
    }
  }

  /** What the accept of a first send leaves for a draft that moves. */
  lemma MovedOrStale(s: DraftState, id: nat)
    requires Inv(s) && Enabled(s, SendAccepted(id)) && !s.sending.value.sourceKey.Conversation?
    requires !DraftsMatch(s.sending.value.sentDraft, Load(s.drafts, s.sending.value.sourceKey))
    ensures var moved, s' := Load(s.drafts, s.sending.value.sourceKey), Next(s, SendAccepted(id));
            && Conversation(id) in s'.drafts && s'.drafts[Conversation(id)] == moved
            && if s.targetKey == Conversation(id) && !Shows(s, moved) then IsStale(s', Conversation(id), moved)
               else s'.targetKey == Conversation(id) ==> Shows(s', moved)
  {
    hide LimitsInv, StoredInv, SendsInv;
  }

  /** As long as nobody edits, sends or deletes it, the draft moved by a first send stays stored, unless the user had
      opened the new conversation before the reply, sees another text there, and has left it since. */
  lemma MovedDraftStaysExactly(run: seq<DraftState>, events: seq<Event>, j: nat, k: nat, id: nat)
    requires IsRun(run, events) && j < k < |run| && events[j] == SendAccepted(id)
    requires run[j].sending.Some? && !run[j].sending.value.sourceKey.Conversation?
    requires !DraftsMatch(run[j].sending.value.sentDraft, Load(run[j].drafts, run[j].sending.value.sourceKey))
    requires forall m | j < m < k && Touches(run[m], events[m], Conversation(id)) :: events[m].Navigate?
    ensures var moved := Load(run[j].drafts, run[j].sending.value.sourceKey);
            && Conversation(id) in run[k].drafts
            && (run[k].drafts[Conversation(id)] == moved <==>
                  !(run[j].targetKey == Conversation(id) && !Shows(run[j], moved) && Leaves(events, j, k)))
  {
    hide Inv, Next, Initial, Touches, Shows;
    InvHolds(run, events, j);
    MovedOrStale(run[j], id);
    var moved := Load(run[j].drafts, run[j].sending.value.sourceKey);
    assert Leaves(events, j, k) <==> Leaves(events, j + 1, k);
    if run[j].targetKey == Conversation(id) && !Shows(run[j], moved) {
      StaleUntilLeft(run, events, j + 1, k, Conversation(id), moved);
    } else {
      ShownStays(run, events, j + 1, k, Conversation(id));
    }
  }

  /** A draft of a conversation survives the accept of a send of it exactly if its text or its attachments have
      changed. */
  lemma ConversationDraftSurvives(s: DraftState, id: nat)
    requires Enabled(s, SendAccepted(id)) && s.sending.value.sourceKey == Conversation(id)
             && Conversation(id) in s.drafts
    ensures Conversation(id) in Next(s, SendAccepted(id)).drafts <==>
            !TextsMatch(s.sending.value.sentDraft, s.drafts[Conversation(id)])
    ensures Conversation(id) in Next(s, SendAccepted(id)).drafts ==>
            Next(s, SendAccepted(id)).drafts[Conversation(id)] == s.drafts[Conversation(id)]
  {
  }

  // ----- screen and store

  predicate Synced(s: DraftState) {
    Shows(s, Load(s.drafts, s.targetKey))
  }

  lemma OtherStepsKeepSync(s: DraftState, event: Event)
    requires Synced(s) && Enabled(s, event) && !event.SendAccepted?
    ensures Synced(Next(s, event))
  {
    hide Accepted;
  }

  /** The screen shows the stored draft after a send was accepted, but for two cases: the user went away and came back
      meanwhile, and the sent draft is gone from the store, but not from the screen; or the user has opened the created
      conversation already, and the draft moved there is not what the screen shows. */
  lemma SyncAfterAccept(s: DraftState, id: nat)
    requires Synced(s) && Enabled(s, SendAccepted(id))
    ensures var source := s.sending.value.sourceKey;
            var moved := !source.Conversation? && !DraftsMatch(s.sending.value.sentDraft, Load(s.drafts, source));
            var kept := source.Conversation? && source in s.drafts
                        && !TextsMatch(s.sending.value.sentDraft, s.drafts[source]);
            Synced(Next(s, SendAccepted(id))) <==>
              || Stayed(s)
              || (s.targetKey == source && (kept || Shows(s, EMPTY_DRAFT)))
              || (s.targetKey != source
                  && (moved && s.targetKey == Conversation(id) ==> Shows(s, Load(s.drafts, source))))
  {
  }

  // ----- runs with a loss

  const START: DraftState := DraftState(map[], [], None, "", Global, 0, None, [], {})

  /** The events lead from an empty store to the state. */
  ghost predicate Leads(events: seq<Event>, s: DraftState) {
    exists run | IsRun(run, events) :: run[0] == START && run[|events|] == s
  }

  lemma NothingLeadsToStart()
    ensures Leads([], START)
  {
    var events: seq<Event> := [];
    assert IsRun([START], events) && [START][|events|] == START;
  }

  lemma LeadsOn(events: seq<Event>, s: DraftState, event: Event)
    requires Leads(events, s) && Enabled(s, event)
    ensures Leads(events + [event], Next(s, event))
  {
    hide Next, Enabled, Initial;
    var run :| IsRun(run, events) && run[0] == START && run[|events|] == s;
    var longer, more := run + [Next(s, event)], events + [event];
    assert IsRun(longer, more) && longer[|more|] == Next(s, event);
  }

  const HI: Snapshot := Snapshot([], None, "hi", None, None)
  const SENT: Snapshot := HI.(requestFingerprint := Some(0), requestId := Some(0))
  const LATER: Snapshot := Snapshot([], None, "later", None, None)
  const MINE: Snapshot := Snapshot([], None, "mine", None, None)
  const FIRST_SEND: Sending := Sending(Global, SENT, 0)

  /** "hi" has been sent and the reply is not there yet. */
  lemma HiIsSent()
    ensures Leads([Update("hi"), Send(0, 0)],
                  DraftState(map[Global := SENT], [], None, "hi", Global, 0, Some(FIRST_SEND), [SENT], {0}))
  {
    hide Leads;
    NothingLeadsToStart();
    LeadsOn([], START, Update("hi"));
    var s := Next(START, Update("hi"));
    assert s == DraftState(map[Global := HI], [], None, "hi", Global, 0, None, [], {});
    assert [] + [Update("hi")] == [Update("hi")];
    LeadsOn([Update("hi")], s, Send(0, 0));
    assert Next(s, Send(0, 0)) ==
           DraftState(map[Global := SENT], [], None, "hi", Global, 0, Some(FIRST_SEND), [SENT], {0});
    assert [Update("hi")] + [Send(0, 0)] == [Update("hi"), Send(0, 0)];
  }

  /** Then "later" has been typed, and the new conversation has been opened. */
  lemma LaterIsTyped()
    ensures Leads([Update("hi"), Send(0, 0), Update("later"), Navigate(Conversation(5))],
                  DraftState(map[Global := LATER], [], None, "", Conversation(5), 1, Some(FIRST_SEND), [SENT], {0}))
  {
    hide Leads;
    HiIsSent();
    var s := DraftState(map[Global := SENT], [], None, "hi", Global, 0, Some(FIRST_SEND), [SENT], {0});
    LeadsOn([Update("hi"), Send(0, 0)], s, Update("later"));
    var s' := Next(s, Update("later"));
    assert s'.drafts == map[Global := LATER];
    LeadsOn([Update("hi"), Send(0, 0)] + [Update("later")], s', Navigate(Conversation(5)));
    assert Next(s', Navigate(Conversation(5))).drafts == map[Global := LATER];
    assert [Update("hi"), Send(0, 0)] + [Update("later")] + [Navigate(Conversation(5))] ==
           [Update("hi"), Send(0, 0), Update("later"), Navigate(Conversation(5))];
  }

  /** A run that ends with the sent text still on the screen, though the store has let go of it. */
  lemma ScreenCanBeStale()
    ensures exists s: DraftState :: !Synced(s) && s.content == "hi" && s.drafts.Values == {EMPTY_DRAFT} && Leads(
              [Update("hi"), Send(0, 0), Navigate(Project(0)), Navigate(Global), SendAccepted(5)], s)
  {
    hide Leads;
    HiIsSent();
    var events := [Update("hi"), Send(0, 0)];
    var s := DraftState(map[Global := SENT], [], None, "hi", Global, 0, Some(FIRST_SEND), [SENT], {0});
    LeadsOn(events, s, Navigate(Project(0)));
    var away := s.(targetKey := Project(0), navigation := 1, content := "");
    assert Next(s, Navigate(Project(0))) == away;
    LeadsOn(events + [Navigate(Project(0))], away, Navigate(Global));
    var back := s.(navigation := 2, drafts := map[Global := SENT, Project(0) := EMPTY_DRAFT]);
    assert Next(away, Navigate(Global)) == back;
    LeadsOn(events + [Navigate(Project(0))] + [Navigate(Global)], back, SendAccepted(5));
    var last := back.(drafts := map[Project(0) := EMPTY_DRAFT], sending := None);
    assert Next(back, SendAccepted(5)) == last;
    assert events + [Navigate(Project(0))] + [Navigate(Global)] + [SendAccepted(5)] ==
           [Update("hi"), Send(0, 0), Navigate(Project(0)), Navigate(Global), SendAccepted(5)];
  }

  /** A run that loses the draft it has moved: the user has opened the new conversation before the reply, and leaves it
      afterwards. */
  lemma MovedDraftIsLost()
    ensures exists s: DraftState :: s.content == "" && s.drafts.Values == {EMPTY_DRAFT} && Leads(
              [Update("hi"), Send(0, 0), Update("later"), Navigate(Conversation(5)), SendAccepted(5),
               Navigate(Global)], s)
  {
    hide Leads;
    LaterIsTyped();
    var events := [Update("hi"), Send(0, 0), Update("later"), Navigate(Conversation(5))];
    var s := DraftState(map[Global := LATER], [], None, "", Conversation(5), 1, Some(FIRST_SEND), [SENT], {0});
    LeadsOn(events, s, SendAccepted(5));
    var accepted := s.(drafts := map[Conversation(5) := LATER], sending := None);
    assert Next(s, SendAccepted(5)) == accepted;
    LeadsOn(events + [SendAccepted(5)], accepted, Navigate(Global));
    var last := accepted.(drafts := map[Conversation(5) := EMPTY_DRAFT], targetKey := Global, navigation := 2);
    assert Next(accepted, Navigate(Global)) == last;
    assert events + [SendAccepted(5)] + [Navigate(Global)] ==
           [Update("hi"), Send(0, 0), Update("later"), Navigate(Conversation(5)), SendAccepted(5), Navigate(Global)];
  }

  /** A run that loses what was typed in the new conversation before the reply: the moved draft takes its place. */
  lemma OlderDraftIsLost()
    ensures exists s: DraftState :: s.content == "later" && s.drafts.Values == {LATER} && Leads(
              [Update("hi"), Send(0, 0), Update("later"), Navigate(Conversation(5)), Update("mine"), Navigate(Global),
               SendAccepted(5)], s)
  {
    hide Leads;
    LaterIsTyped();
    var events := [Update("hi"), Send(0, 0), Update("later"), Navigate(Conversation(5))];
    var s := DraftState(map[Global := LATER], [], None, "", Conversation(5), 1, Some(FIRST_SEND), [SENT], {0});
    LeadsOn(events, s, Update("mine"));
    var typed := s.(drafts := map[Global := LATER, Conversation(5) := MINE], content := "mine");
    assert Next(s, Update("mine")) == typed;
    LeadsOn(events + [Update("mine")], typed, Navigate(Global));
    var back := typed.(targetKey := Global, navigation := 2, content := "later");
    assert Next(typed, Navigate(Global)) == back;
    LeadsOn(events + [Update("mine")] + [Navigate(Global)], back, SendAccepted(5));
    var last := back.(drafts := map[Conversation(5) := LATER], sending := None);
    assert last.drafts[Conversation(5)] == LATER;
    assert Next(back, SendAccepted(5)) == last;
    assert events + [Update("mine")] + [Navigate(Global)] + [SendAccepted(5)] ==
           [Update("hi"), Send(0, 0), Update("later"), Navigate(Conversation(5)), Update("mine"), Navigate(Global),
            SendAccepted(5)];
  }

  /** A run that throws an edit away: what the user picked in the composer during a send of the same text. */
  lemma ComposerEditIsLost()
    ensures exists s: DraftState :: s.drafts == map[Global := EMPTY_DRAFT] && s.composerContent == None && Leads(
              [Navigate(Conversation(1)), Update("hi"), Send(0, 0), UpdateComposer("hi", Some("token")),
               SendAccepted(1)], s)
  {
    hide Leads;
    NothingLeadsToStart();
    LeadsOn([], START, Navigate(Conversation(1)));
    var there := START.(drafts := map[Global := EMPTY_DRAFT], targetKey := Conversation(1), navigation := 1);
    assert Next(START, Navigate(Conversation(1))) == there;
    LeadsOn([] + [Navigate(Conversation(1))], there, Update("hi"));
    var typed := there.(drafts := map[Global := EMPTY_DRAFT, Conversation(1) := HI], content := "hi");
    assert Next(there, Update("hi")) == typed;
    LeadsOn([] + [Navigate(Conversation(1))] + [Update("hi")], typed, Send(0, 0));
    PickedTokenIsLost(typed, [] + [Navigate(Conversation(1))] + [Update("hi")]);
    assert [] + [Navigate(Conversation(1))] + [Update("hi")] + [Send(0, 0)]
           + [UpdateComposer("hi", Some("token"))] + [SendAccepted(1)] ==
           [Navigate(Conversation(1)), Update("hi"), Send(0, 0), UpdateComposer("hi", Some("token")), SendAccepted(1)];
  }

  lemma PickedTokenIsLost(typed: DraftState, events: seq<Event>)
    requires Leads(events, typed)
    requires typed == DraftState(map[Global := EMPTY_DRAFT, Conversation(1) := HI], [], None, "hi", Conversation(1), 1,
                                 None, [], {})
    ensures exists s: DraftState :: s.drafts == map[Global := EMPTY_DRAFT] && s.composerContent == None && Leads(
              events + [Send(0, 0)] + [UpdateComposer("hi", Some("token"))] + [SendAccepted(1)], s)
  {
    hide Leads;
    LeadsOn(events, typed, Send(0, 0));
    var sent := typed.(drafts := map[Global := EMPTY_DRAFT, Conversation(1) := SENT],
                       sending := Some(Sending(Conversation(1), SENT, 1)), sends := [SENT], usedIds := {0});
    assert Next(typed, Send(0, 0)) == sent;
    LeadsOn(events + [Send(0, 0)], sent, UpdateComposer("hi", Some("token")));
    var picked := sent.(drafts := map[Global := EMPTY_DRAFT, Conversation(1) := HI.(composerContent := Some("token"))],
                        composerContent := Some("token"));
    assert Next(sent, UpdateComposer("hi", Some("token"))) == picked;
    LeadsOn(events + [Send(0, 0)] + [UpdateComposer("hi", Some("token"))], picked, SendAccepted(1));
    var last := picked.(drafts := map[Global := EMPTY_DRAFT], composerContent := None, content := "", sending := None);
    assert Next(picked, SendAccepted(1)) == last;
  }

  // ----- the object

  lemma AcceptNext(current: seq<Attachment>, incoming: seq<Attachment>, i: nat)
    requires i < |incoming|
    ensures var before := Accepted(current, incoming[..i]);
            && Accepted(current, incoming[..i + 1]) ==
                 (if HasRoom(before, incoming[i]) then before + [incoming[i]] else before)
            && Refused(current, incoming[..i + 1]) ==
                 Refused(current, incoming[..i]) + (if HasRoom(before, incoming[i]) then [] else [incoming[i].id])
  {
    assert incoming[..i + 1][..i] == incoming[..i];
  }

  lemma NothingOffered(current: seq<Attachment>)
    ensures Accepted(current, []) == current && Refused(current, []) == []
  {
  }

  method SumBytes(attachments: seq<Attachment>) returns (total: nat)
    ensures total == TotalBytes(attachments)
  {
    total := 0;
    for i := 0 to |attachments|
      invariant total == TotalBytes(attachments[..i])
    {
      assert attachments[..i + 1][..i] == attachments[..i];
      total := total + attachments[i].sizeBytes;
    }
    assert attachments[..|attachments|] == attachments;
  }

  /** The loop of appendAttachments. */
  method TakeAttachments(current: seq<Attachment>, incoming: seq<Attachment>)
    returns (accepted: seq<Attachment>, rejectedIds: seq<AttachmentId>)
    ensures accepted == Accepted(current, incoming)
    ensures rejectedIds == Refused(current, incoming)
  {
    hide Accepted, Refused;
    accepted := current;
    var totalBytes := SumBytes(accepted);
    rejectedIds := [];
    NothingOffered(current);
    assert incoming[..0] == [];
    for i := 0 to |incoming|
      invariant accepted == Accepted(current, incoming[..i])
      invariant rejectedIds == Refused(current, incoming[..i])
      invariant totalBytes == TotalBytes(accepted)
    {
      AcceptNext(current, incoming, i);
      if |accepted| >= ATTACHMENT_COUNT_LIMIT || totalBytes + incoming[i].sizeBytes > ATTACHMENT_TOTAL_BYTES_LIMIT {
        rejectedIds := rejectedIds + [incoming[i].id];
      } else {
        assert (accepted + [incoming[i]])[..|accepted|] == accepted;
        accepted := accepted + [incoming[i]];
        totalBytes := totalBytes + incoming[i].sizeBytes;
      }
    }
    assert incoming[..|incoming|] == incoming;
  }

  /** useDesktopDraft together with the navigation and the send of useDesktopChat. */
  class Composer {
    var drafts: map<TargetKey, Snapshot>
    var attachments: seq<Attachment>
    var composerContent: Option<string>
    var content: string
    var targetKey: TargetKey
    var navigation: nat
    var sending: Option<Sending>
    ghost var sends: seq<Snapshot>
    ghost var usedIds: set<RequestId>

    ghost function State(): DraftState
      reads this
    {
      DraftState(drafts, attachments, composerContent, content, targetKey, navigation, sending, sends, usedIds)
    }

    ghost predicate Valid()
      reads this
    {
      Inv(State())
    }

    constructor ()
      ensures Valid() && Initial(State())
    {
      drafts, targetKey, navigation, sending := map[], Global, 0, None;
      attachments, composerContent, content := [], None, "";
      sends, usedIds := [], {};
    }

    method Save(resetRequestId: bool)
      modifies this`drafts
      ensures State() == SaveCurrentDraft(old(State()), resetRequestId)
    {
      var current := Load(drafts, targetKey);
      drafts := drafts[targetKey := Snapshot(attachments, composerContent, content,
                                             if resetRequestId then None else current.requestFingerprint,
                                             if resetRequestId then None else current.requestId)];
    }

    method Restore()
      modifies this
      ensures State() == RestoreCurrentDraft(old(State()))
    {
      var stored := Load(drafts, targetKey);
      content := stored.content;
      composerContent := stored.composerContent;
      attachments := stored.attachments;
    }

    /** The ids returned are those given to releaseAttachments. */
    method AppendAttachments(incoming: seq<Attachment>) returns (rejectedIds: seq<AttachmentId>)
      requires Valid()
      modifies this
      ensures Valid() && State() == Next(old(State()), Append(incoming))
      ensures rejectedIds == Refused(old(attachments), incoming)
    {
      hide Inv, Accepted, Refused;
      InvStep(State(), Append(incoming));
      attachments, rejectedIds := TakeAttachments(attachments, incoming);
      Save(true);
    }

    method RemoveAttachment(index: nat) returns (releasedIds: seq<AttachmentId>)
      requires Valid()
      modifies this
      ensures Valid() && State() == Next(old(State()), Remove(index))
      ensures releasedIds == if index < |old(attachments)| then [old(attachments)[index].id] else []
    {
      hide Inv;
      InvStep(State(), Remove(index));
      if index >= |attachments| {
        return [];
      }
      releasedIds := [attachments[index].id];
      attachments := attachments[..index] + attachments[index + 1..];
      Save(true);
    }

    method UpdateComposerContent(newContent: string, value: Option<string>)
      requires Valid()
      modifies this
      ensures Valid() && State() == Next(old(State()), UpdateComposer(newContent, value))
    {
      hide Inv;
      InvStep(State(), UpdateComposer(newContent, value));
      content := newContent;
      composerContent := value;
      Save(true);
    }

    method UpdateDraft(newContent: string)
      requires Valid()
      modifies this
      ensures Valid() && State() == Next(old(State()), Update(newContent))
    {
      hide Inv;
      InvStep(State(), Update(newContent));
      content := newContent;
      composerContent := None;
      Save(true);
    }

    method OpenTarget(key: TargetKey)
      requires Valid()
      modifies this
      ensures Valid() && State() == Next(old(State()), Navigate(key))
    {
      hide Inv;
      InvStep(State(), Navigate(key));
      Save(false);
      navigation := navigation + 1;
      targetKey := key;
      Restore();
    }

    /** The ids returned are those given to releaseAttachments. */
    method DeleteConversation(conversationId: nat) returns (releasedIds: seq<AttachmentId>)
      requires Valid()
      modifies this
      ensures Valid() && State() == Next(old(State()), Delete(conversationId))
      ensures releasedIds == Ids(Load(old(drafts), Conversation(conversationId)).attachments)
    {
      hide Inv;
      InvStep(State(), Delete(conversationId));
      releasedIds := Ids(Load(drafts, Conversation(conversationId)).attachments);
      drafts := drafts - {Conversation(conversationId)};
      if targetKey == Conversation(conversationId) {
        navigation := navigation + 1;
        targetKey := Global;
        Restore();
      }
    }

    method StartSend(requestId: RequestId, fingerprint: Fingerprint) returns (sent: Snapshot)
      requires Valid() && Enabled(State(), Send(requestId, fingerprint))
      modifies this
      ensures Valid() && State() == Next(old(State()), Send(requestId, fingerprint))
      ensures sends == old(sends) + [sent]
    {
      hide Inv;
      InvStep(State(), Send(requestId, fingerprint));
      Save(false);
      sent := Load(drafts, targetKey);
      if !(sent.requestId.Some? && sent.requestFingerprint == Some(fingerprint)) {
        sent := sent.(requestFingerprint := Some(fingerprint), requestId := Some(requestId));
        drafts := drafts[targetKey := sent];
      }
      sending := Some(Sending(targetKey, sent, navigation));
      sends, usedIds := sends + [sent], usedIds + {requestId};
    }

    method CommitSend(conversationId: nat)
      requires Valid() && Enabled(State(), SendAccepted(conversationId))
      modifies this
      ensures Valid() && State() == Next(old(State()), SendAccepted(conversationId))
    {
      hide Inv;
      InvStep(State(), SendAccepted(conversationId));
      var started := sending.value;
      var storedDraft := Load(drafts, started.sourceKey);
      if !started.sourceKey.Conversation? {
        drafts := drafts - {started.sourceKey};
        if !DraftsMatch(started.sentDraft, storedDraft) {
          drafts := drafts[Conversation(conversationId) := storedDraft];
        }
      } else if TextsMatch(started.sentDraft, storedDraft) {
        drafts := drafts - {started.sourceKey};
      }
      sending := None;
      if started.navigation != navigation || started.sourceKey != targetKey {
        return;
      }
      targetKey := Conversation(conversationId);
      Restore();
    }
  }
}
