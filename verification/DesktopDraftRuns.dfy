/** What the user finds in the composer, over whole runs: what an edit sends, what navigation and deletion leave, and
    where an accepted send leads. */
module DesktopDraftRuns {
  import opened Wrappers
  import opened DesktopDraft

  // ----- edits and sends

  /** The screen after an edit. */
  predicate ShowsEdit(s: DraftState, event: Event, shown: Snapshot)
    requires IsEdit(s, event)
  {
    match event
    case Update(content) =>
      shown.content == content && shown.composerContent == None && shown.attachments == s.attachments
    case UpdateComposer(content, value) =>
      shown.content == content && shown.composerContent == value && shown.attachments == s.attachments
    case Append(incoming) =>
      && shown.content == s.content && shown.composerContent == s.composerContent
      && shown.attachments == s.attachments + Select(incoming, Kept(s.attachments, incoming), true)
    case Remove(index) =>
      && shown.content == s.content && shown.composerContent == s.composerContent
      && |shown.attachments| == |s.attachments| - 1
      && forall i | 0 <= i < |shown.attachments| ::
           shown.attachments[i] == if i < index then s.attachments[i] else s.attachments[i + 1]
    case _ => true
  }

  lemma EditIsShown(s: DraftState, event: Event, shown: Snapshot)
    requires IsEdit(s, event) && Shows(Next(s, event), shown)
    ensures ShowsEdit(s, event, shown)
  {
    hide Accepted;
    if event.Append? {
      KeptOrRefused(s.attachments, event.incoming);
    }
  }

  /** The next send of an edited draft sends what was typed, put in, attached or left of the attachments, under a new
      request id, whatever was done to other drafts meanwhile. */
  lemma LastEditIsSent(run: seq<DraftState>, events: seq<Event>, i: nat, j: nat)
    requires IsRun(run, events) && i < j < |events| && IsEdit(run[i], events[i]) && events[j].Send?
    requires run[j].targetKey == run[i].targetKey
    requires forall k | i < k < j :: !Touches(run[k], events[k], run[i].targetKey)
    ensures |run[j + 1].sends| == |run[j].sends| + 1
    ensures var sent := run[j + 1].sends[|run[j].sends|];
            sent.requestId == Some(events[j].requestId) && ShowsEdit(run[i], events[i], sent)
  {
    hide Inv, Initial, Next, Touches, ShowsEdit;
    EditMakesNewRequest(run, events, i, j);
    EditIsShown(run[i], events[i], run[j + 1].sends[|run[j].sends|]);
  }

  lemma SendTakesScreen(s: DraftState, requestId: RequestId, fingerprint: Fingerprint)
    requires Enabled(s, Send(requestId, fingerprint))
    ensures var sends := Next(s, Send(requestId, fingerprint)).sends;
            && |sends| == |s.sends| + 1
            && Shows(s, sends[|s.sends|])
            && sends[|s.sends|].requestFingerprint == Some(fingerprint) && sends[|s.sends|].requestId.Some?
  {
  }

  /** The event ends a send. */
  predicate EndsSend(event: Event) {
    event.SendAccepted? || event.SendFailed?
  }

  /** A send is on its way exactly if it was begun and has neither been accepted nor failed since; it sends what was on
      the screen when it was begun. */
  lemma {:induction false} SendingExactly(run: seq<DraftState>, events: seq<Event>, i: nat)
    requires IsRun(run, events) && i < |run|
    ensures run[i].sending.Some? <==>
            exists j :: 0 <= j < i && events[j].Send? && forall k | j < k < i :: !EndsSend(events[k])
    ensures forall j | 0 <= j < i && events[j].Send? && (forall k | j < k < i :: !EndsSend(events[k])) ::
              && run[i].sending.Some? && Shows(run[j], run[i].sending.value.sentDraft)
              && run[i].sending.value.sourceKey == run[j].targetKey
  {
    hide Inv, Next, Initial, Enabled;
    if run[i].sending.Some? {
      SendingBegins(run, events, i);
    }
    forall j | 0 <= j < i && events[j].Send? && (forall k | j < k < i :: !EndsSend(events[k]))
      ensures && run[i].sending.Some? && Shows(run[j], run[i].sending.value.sentDraft)
              && run[i].sending.value.sourceKey == run[j].targetKey
    {
      SendingStays(run, events, j, i);
      SendTakesScreen(run[j], events[j].requestId, events[j].fingerprint);
    }
  }

  lemma SendingStep(s: DraftState, event: Event)
    requires Enabled(s, event)
    ensures Next(s, event).sending.Some? <==> event.Send? || (s.sending.Some? && !EndsSend(event))
  {
    hide Accepted;
  }

  lemma NothingIsSentAtFirst(run: seq<DraftState>, events: seq<Event>)
    requires IsRun(run, events)
    ensures run[0].sending.None?
  {
  }

  lemma {:induction false} SendingBegins(run: seq<DraftState>, events: seq<Event>, i: nat)
    requires IsRun(run, events) && i < |run| && run[i].sending.Some?
    ensures exists j :: 0 <= j < i && events[j].Send? && forall k | j < k < i :: !EndsSend(events[k])
    decreases i
  {
    hide Inv, Next, Initial, Enabled;
    if i == 0 {
      NothingIsSentAtFirst(run, events);
    } else {
      SendingStep(run[i - 1], events[i - 1]);
      if !events[i - 1].Send? {
        SendingBegins(run, events, i - 1);
        var j :| 0 <= j < i - 1 && events[j].Send? && forall k | j < k < i - 1 :: !EndsSend(events[k]);
        assert forall k | j < k < i :: !EndsSend(events[k]);
      }
    }
  }

  // ----- navigation

  /** Opening a target shows what is stored for it, or nothing; opening the one on the screen changes nothing there. */
  lemma NavigateShows(s: DraftState, key: TargetKey)
    ensures var s' := Next(s, Navigate(key));
            && s'.targetKey == key
            && Shows(s', if key == s.targetKey then Snapshot(s.attachments, s.composerContent, s.content, None, None)
                         else Load(s.drafts, key))
  {
  }

  lemma LeavingSaves(s: DraftState, key: TargetKey)
    ensures var s' := Next(s, Navigate(key));
            && s.targetKey in s'.drafts && Shows(s, s'.drafts[s.targetKey])
            && (s'.targetKey == s.targetKey ==> Shows(s', s'.drafts[s.targetKey]))
  {
  }

  /** Who leaves a target and comes back to it finds the screen as it was left, whatever was done to other drafts
      meanwhile. */
  lemma ComesBackAsLeft(run: seq<DraftState>, events: seq<Event>, i: nat, j: nat)
    requires IsRun(run, events) && i < j < |events| && events[i].Navigate? && events[j] == Navigate(run[i].targetKey)
    requires forall k | i < k < j :: !Touches(run[k], events[k], run[i].targetKey)
    ensures run[j + 1].targetKey == run[i].targetKey
    ensures run[j + 1].content == run[i].content && run[j + 1].composerContent == run[i].composerContent
    ensures run[j + 1].attachments == run[i].attachments
  {
    hide Inv, Next, Initial, Touches;
    var key := run[i].targetKey;
    LeavingSaves(run[i], events[i].key);
    UntouchedDraftStaysLong(run, events, i + 1, j, key);
    UntouchedStaysShownLong(run, events, i + 1, j, key);
    NavigateShows(run[j], key);
  }

  // ----- deletion

  /** Deleting a conversation takes its draft out of the store and no other; on its own screen it leads to the global
      draft, and it changes no other screen. */
  lemma DeleteLeaves(s: DraftState, id: nat)
    ensures var s' := Next(s, Delete(id));
            && (forall key :: key in s'.drafts <==> key in s.drafts && key != Conversation(id))
            && (forall key | key in s'.drafts :: s'.drafts[key] == s.drafts[key])
            && if s.targetKey == Conversation(id) then s'.targetKey == Global && Shows(s', Load(s.drafts, Global))
               else s'.targetKey == s.targetKey && s'.content == s.content && s'.attachments == s.attachments
                    && s'.composerContent == s.composerContent
  {
  }

  /** Only what is on the screen, or moved there by a first send, comes into the store. */
  lemma DraftsComeFrom(s: DraftState, event: Event, key: TargetKey)
    requires Enabled(s, event) && key in Next(s, event).drafts && key !in s.drafts
    ensures s.targetKey == key || (event.SendAccepted? && key == Conversation(event.conversationId))
  {
    hide Accepted;
  }

  /** The draft of a deleted conversation does not come back: as long as the user is elsewhere and no first send creates
      the conversation, nothing is stored for it, and opening it shows an empty composer. */
  lemma {:induction false} DeletedDraftIsGone(run: seq<DraftState>, events: seq<Event>, i: nat, j: nat)
    requires IsRun(run, events) && i < j < |run| && events[i].Delete?
    requires forall k | i < k <= j :: run[k].targetKey != Conversation(events[i].conversationId)
    requires forall k | i < k < j :: events[k] != SendAccepted(events[i].conversationId)
    ensures Conversation(events[i].conversationId) !in run[j].drafts
    ensures Shows(Next(run[j], Navigate(Conversation(events[i].conversationId))), EMPTY_DRAFT)
    decreases j
  {
    hide Inv, Next, Initial, Enabled;
    var key := Conversation(events[i].conversationId);
    if j == i + 1 {
      DeleteLeaves(run[i], events[i].conversationId);
    } else {
      DeletedDraftIsGone(run, events, i, j - 1);
      if key in run[j].drafts {
        DraftsComeFrom(run[j - 1], events[j - 1], key);
        IsThatAccept(events[j - 1], key);
        assert false;
      }
    }
    NavigateShows(run[j], key);
  }

  lemma IsThatAccept(event: Event, key: TargetKey)
    ensures event.SendAccepted? && key == Conversation(event.conversationId) ==> event == SendAccepted(key.id)
  {
  }

  // ----- where an accepted send leads

  /** The event leads away from the target on the screen. */
  predicate Departs(s: DraftState, event: Event) {
    event.Navigate? || (event.Delete? && s.targetKey == Conversation(event.conversationId))
  }

  lemma DepartureCounts(s: DraftState, event: Event)
    requires Enabled(s, event)
    ensures var s' := Next(s, event);
            && s'.navigation == s.navigation + (if Departs(s, event) then 1 else 0)
            && (!Departs(s, event) && !event.SendAccepted? ==> s'.targetKey == s.targetKey)
  {
    hide Accepted;
  }

  lemma {:induction false} DeparturesAreCounted(run: seq<DraftState>, events: seq<Event>, i: nat, j: nat)
    requires IsRun(run, events) && i <= j < |run|
    requires forall k | i <= k < j :: !events[k].SendAccepted?
    ensures run[i].navigation <= run[j].navigation
    ensures run[i].navigation == run[j].navigation <==> forall k | i <= k < j :: !Departs(run[k], events[k])
    ensures run[i].navigation == run[j].navigation ==> run[j].targetKey == run[i].targetKey
    decreases j
  {
    hide Inv, Next, Initial, Enabled, Departs;
    if i < j {
      DeparturesAreCounted(run, events, i, j - 1);
      DepartureCounts(run[j - 1], events[j - 1]);
    }
  }

  lemma AcceptLeads(s: DraftState, id: nat)
    requires Enabled(s, SendAccepted(id))
    ensures var s' := Next(s, SendAccepted(id));
            if Stayed(s) then s'.targetKey == Conversation(id) && Shows(s', Load(s'.drafts, Conversation(id)))
            else s'.targetKey == s.targetKey && s'.content == s.content && s'.attachments == s.attachments
                 && s'.composerContent == s.composerContent
  {
  }

  /** An accepted send leads to its conversation, with what is stored for it, exactly if the user has not left the
      screen since the send began; otherwise the screen stays as it is. */
  lemma AcceptedSendLeads(run: seq<DraftState>, events: seq<Event>, i: nat, j: nat)
    requires IsRun(run, events) && i < j < |events| && events[i].Send? && events[j].SendAccepted?
    requires forall k | i < k < j :: !EndsSend(events[k])
    ensures var s, s', conversation := run[j], run[j + 1], Conversation(events[j].conversationId);
            if forall k | i < k < j :: !Departs(run[k], events[k])
            then s'.targetKey == conversation && Shows(s', Load(s'.drafts, conversation))
            else s'.targetKey == s.targetKey && s'.content == s.content && s'.attachments == s.attachments
                 && s'.composerContent == s.composerContent
  {
    hide Inv, Next, Initial, Enabled, Departs;
    SendingStays(run, events, i, j);
    NoDepartureBySend(run[i], events[i]);
    DepartureCounts(run[i], events[i]);
    DeparturesAreCounted(run, events, i + 1, j);
    AcceptLeads(run[j], events[j].conversationId);
  }

  lemma NoDepartureBySend(s: DraftState, event: Event)
    requires event.Send?
    ensures !Departs(s, event)
  {
  }

  /** What counts as unchanged for a first send, and for one in a conversation. */
  lemma MatchesExactly(left: Snapshot, right: Snapshot)
    ensures TextsMatch(left, right) <==>
              && left.content == right.content && |left.attachments| == |right.attachments|
              && forall i | 0 <= i < |left.attachments| :: left.attachments[i].id == right.attachments[i].id
    ensures DraftsMatch(left, right) <==> TextsMatch(left, right) && left.composerContent == right.composerContent
  {
    var ids, others := Ids(left.attachments), Ids(right.attachments);
    assert forall i | 0 <= i < |ids| :: ids[i] == left.attachments[i].id;
    assert forall i | 0 <= i < |others| :: others[i] == right.attachments[i].id;
    if |ids| == |others| && forall i | 0 <= i < |ids| :: left.attachments[i].id == right.attachments[i].id {
      assert ids == others;
    }
  }

  /** Another text typed during a first send is the new conversation's draft after the accept, whatever was done to
      other drafts meanwhile. */
  lemma TypedDuringSendIsKept(run: seq<DraftState>, events: seq<Event>, i: nat, edit: nat, j: nat)
    requires IsRun(run, events) && i < edit < j < |events|
    requires events[i].Send? && !run[i].targetKey.Conversation? && events[j].SendAccepted?
    requires forall k | i < k < j :: !EndsSend(events[k])
    requires events[edit].Update? && events[edit].content != run[i].content
    requires run[edit].targetKey == run[i].targetKey
    requires forall k | edit < k < j :: !Touches(run[k], events[k], run[i].targetKey)
    ensures Conversation(events[j].conversationId) in run[j + 1].drafts
    ensures var kept := run[j + 1].drafts[Conversation(events[j].conversationId)];
            kept.content == events[edit].content && kept.attachments == run[edit].attachments
    ensures run[i].targetKey !in run[j + 1].drafts
  {
    hide Inv, Next, Initial, Enabled, Touches;
    TypedTextSurvives(run, events, i, edit, j);
    SendTakesScreen(run[i], events[i].requestId, events[i].fingerprint);
    EditIsShown(run[edit], events[edit], run[edit + 1].drafts[run[i].targetKey]);
  }
}
