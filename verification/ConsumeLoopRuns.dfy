/** What a consume loop does next, over whole runs: when it sleeps, when it goes back to its pending entries, and that
    it always comes to read new ones. */
module ConsumeLoopRuns {
  import opened ConsumeLoop

  /** A run with its events. */
  ghost predicate TakesAll(maxConcurrentRuns: nat, run: seq<LoopState>, events: seq<Event>) {
    && |run| == |events| + 1 && run[0] == InitialState()
    && forall i | 0 <= i < |events| ::
         Enabled(maxConcurrentRuns, run[i], events[i]) && run[i + 1] == Next(maxConcurrentRuns, run[i], events[i])
  }

  /** The event moves this loop. */
  predicate IsOf(event: Event, k: nat) {
    (event.Resume? || event.Batch? || event.ReadError?) && event.loop == k
  }

  /** The latest event before the i-th that moves the loop. */
  ghost predicate LastOwnAt(events: seq<Event>, j: nat, i: nat, k: nat)
    requires i <= |events|
  {
    j < i && IsOf(events[j], k) && forall l | j < l < i :: !IsOf(events[l], k)
  }

  /** A read at this position brings the loop nothing to do: all its messages are in flight, or it is not issued,
      because the handler is gone or the wait for a slot was given up. */
  ghost predicate BringsNothing(maxConcurrentRuns: nat, s: LoopState, event: Event, k: nat, position: StreamPosition) {
    && k < |s.loops|
    && if event.Batch? then
         && event.loop == k && s.loops[k].Reading? && s.loops[k].position == position
         && forall id | id in event.messages :: id in s.inFlightMessageIds
       else
         && event == Resume(k) && s.loops[k].WaitingForSlot? && s.loops[k].position == position
         && (!s.subscribed || |s.inFlightMessages| >= maxConcurrentRuns)
  }

  /** The batch brings a message that is not in flight. */
  ghost predicate BringsSome(s: LoopState, event: Event, k: nat) {
    event.Batch? && event.loop == k && exists id | id in event.messages :: id !in s.inFlightMessageIds
  }

  lemma OthersLeaveLoop(maxConcurrentRuns: nat, s: LoopState, event: Event, k: nat)
    requires Enabled(maxConcurrentRuns, s, event) && !IsOf(event, k)
    ensures var s' := Next(maxConcurrentRuns, s, event);
            k < |s'.loops| ==> if k < |s.loops| then s'.loops[k] == s.loops[k] else s'.loops[k] == Starting
  {
    hide TrackAll;
    if event.Batch? {
      TrackAllGrows(s, event.messages);
    }
  }

  lemma OwnEventMoves(maxConcurrentRuns: nat, s: LoopState, event: Event, k: nat)
    requires Enabled(maxConcurrentRuns, s, event) && IsOf(event, k)
    ensures k < |s.loops| == |Next(maxConcurrentRuns, s, event).loops|
    ensures var pc, pc' := s.loops[k], Next(maxConcurrentRuns, s, event).loops[k];
            match event
            case Batch(_, messages) => pc.Reading? && pc' == BatchDone(pc.position, SomeNew(s, messages))
            case ReadError(_) => pc.Reading? && pc' == if s.closed || !s.running then Stopped else Sleeping
            case _ => pc' == Resumed(maxConcurrentRuns, s, pc)
  {
    hide TrackAll, Resumed;
    if event.Batch? {
      TrackAllGrows(s, event.messages);
    }
  }

  lemma DoneMeaning(maxConcurrentRuns: nat, s: LoopState, event: Event, k: nat)
    requires Enabled(maxConcurrentRuns, s, event) && IsOf(event, k)
    ensures k < |Next(maxConcurrentRuns, s, event).loops|
    ensures var pc' := Next(maxConcurrentRuns, s, event).loops[k];
            pc'.BatchDone? ==> if pc'.handled then BringsSome(s, event, k)
                               else BringsNothing(maxConcurrentRuns, s, event, k, pc'.position)
    ensures forall position :: BringsNothing(maxConcurrentRuns, s, event, k, position) ==>
              Next(maxConcurrentRuns, s, event).loops[k] == BatchDone(position, false)
    ensures BringsSome(s, event, k) ==>
              && Next(maxConcurrentRuns, s, event).loops[k].BatchDone?
              && Next(maxConcurrentRuns, s, event).loops[k].handled
  {
    hide Next, Enabled;
    OwnEventMoves(maxConcurrentRuns, s, event, k);
  }

  lemma NoLoopAtFirst(maxConcurrentRuns: nat, run: seq<LoopState>, events: seq<Event>)
    requires TakesAll(maxConcurrentRuns, run, events)
    ensures run[0].loops == [] && !run[0].running && !run[0].closed && !run[0].subscribed
  {
  }

  /** A loop that is neither starting nor missing has been moved, and stands since then where its latest event put
      it. */
  lemma {:induction false} LoopStays(maxConcurrentRuns: nat, run: seq<LoopState>, events: seq<Event>, i: nat, k: nat)
    returns (j: nat)
    requires TakesAll(maxConcurrentRuns, run, events) && i < |run|
    requires k < |run[i].loops| && run[i].loops[k] != Starting
    ensures LastOwnAt(events, j, i, k)
    ensures Enabled(maxConcurrentRuns, run[j], events[j])
    ensures k < |Next(maxConcurrentRuns, run[j], events[j]).loops|
    ensures run[i].loops[k] == Next(maxConcurrentRuns, run[j], events[j]).loops[k]
    decreases i
  {
    hide Next, Enabled, InitialState;
    if i == 0 {
      NoLoopAtFirst(maxConcurrentRuns, run, events);
    } else {
      var s, event := run[i - 1], events[i - 1];
      if IsOf(event, k) {
        OwnEventMoves(maxConcurrentRuns, s, event, k);
        j := i - 1;
      } else {
        OthersLeaveLoop(maxConcurrentRuns, s, event, k);
        j := LoopStays(maxConcurrentRuns, run, events, i - 1, k);
      }
    }
  }

  lemma SleepComesFrom(maxConcurrentRuns: nat, s: LoopState, event: Event, k: nat)
    requires Enabled(maxConcurrentRuns, s, event) && IsOf(event, k)
    requires k < |Next(maxConcurrentRuns, s, event).loops|
    requires Next(maxConcurrentRuns, s, event).loops[k] == Sleeping
    ensures event == ReadError(k) || (event == Resume(k) && k < |s.loops| && s.loops[k] == BatchDone(New, false))
  {
    hide Next, Enabled;
    OwnEventMoves(maxConcurrentRuns, s, event, k);
    EnabledResume(maxConcurrentRuns, s, event);
  }

  lemma EnabledResume(maxConcurrentRuns: nat, s: LoopState, event: Event)
    requires Enabled(maxConcurrentRuns, s, event)
    ensures event.Resume? ==> event.loop < |s.loops| && !s.loops[event.loop].Reading? && !s.loops[event.loop].Stopped?
  {
  }

  /** A loop sleeps only after a read that failed, or after a read of new entries, the latest thing it did, that brought
      it nothing to do or was not issued. */
  lemma SleepsOnlyWithoutWork(maxConcurrentRuns: nat, run: seq<LoopState>, events: seq<Event>, i: nat, k: nat)
    requires TakesAll(maxConcurrentRuns, run, events) && i < |run|
    requires k < |run[i].loops| && run[i].loops[k] == Sleeping
    ensures exists j :: 0 <= j < i && LastOwnAt(events, j, i, k)
              && (events[j] == ReadError(k)
                  || (events[j] == Resume(k)
                      && exists l :: 0 <= l < j && LastOwnAt(events, l, j, k)
                           && BringsNothing(maxConcurrentRuns, run[l], events[l], k, New)))
  {
    hide TakesAll, Next, Enabled, BringsNothing;
    LengthsAgree(maxConcurrentRuns, run, events);
    var j := LoopStays(maxConcurrentRuns, run, events, i, k);
    SleepComesFrom(maxConcurrentRuns, run[j], events[j], k);
    if events[j] == Resume(k) {
      var l := LoopStays(maxConcurrentRuns, run, events, j, k);
      DoneMeaning(maxConcurrentRuns, run[l], events[l], k);
    }
  }

  lemma LengthsAgree(maxConcurrentRuns: nat, run: seq<LoopState>, events: seq<Event>)
    requires TakesAll(maxConcurrentRuns, run, events)
    ensures |run| == |events| + 1
  {
  }

  // ----- where a loop goes from a read

  lemma {:induction false} StandsSince(maxConcurrentRuns: nat, run: seq<LoopState>, events: seq<Event>, j: nat, i: nat,
                                       k: nat)
    requires TakesAll(maxConcurrentRuns, run, events) && j < i < |run| && k < |run[j].loops|
    requires forall l | j < l < i :: !IsOf(events[l], k)
    ensures k < |run[j + 1].loops| && k < |run[i].loops| && run[i].loops[k] == run[j + 1].loops[k]
    decreases i
  {
    hide Next, Enabled, InitialState;
    LoopsOnlyGrow(maxConcurrentRuns, run[i - 1], events[i - 1]);
    if j + 1 < i {
      StandsSince(maxConcurrentRuns, run, events, j, i - 1, k);
      OthersLeaveLoop(maxConcurrentRuns, run[i - 1], events[i - 1], k);
    }
  }

  lemma LoopsOnlyGrow(maxConcurrentRuns: nat, s: LoopState, event: Event)
    requires Enabled(maxConcurrentRuns, s, event)
    ensures |Next(maxConcurrentRuns, s, event).loops| >= |s.loops|
  {
    hide TrackAll;
    if event.Batch? {
      TrackAllGrows(s, event.messages);
    }
  }

  lemma ResumeFrom(maxConcurrentRuns: nat, s: LoopState, k: nat)
    requires Enabled(maxConcurrentRuns, s, Resume(k)) && k < |s.loops| && s.loops[k].BatchDone?
    ensures k < |Next(maxConcurrentRuns, s, Resume(k)).loops|
    ensures Next(maxConcurrentRuns, s, Resume(k)).loops[k] ==
            if s.loops[k].handled then (if s.closed || !s.running then Stopped else WaitingForSlot(Pending, false))
            else if s.loops[k].position == Pending then WaitingForSlot(New, s.inFlightMessages == {})
            else Sleeping
  {
  }

  /** Behind a batch with a message that was not in flight, the loop goes back to its pending entries, or ends if it is
      to stop. Behind a read of pending entries that brought nothing it goes on to the new ones, which it will wait for
      exactly if nothing is in flight; and behind a read of new entries that brought nothing it sleeps. */
  lemma GoesOnAfterRead(maxConcurrentRuns: nat, run: seq<LoopState>, events: seq<Event>, j: nat, i: nat, k: nat)
    requires TakesAll(maxConcurrentRuns, run, events) && i < |events| && events[i] == Resume(k)
    requires LastOwnAt(events, j, i, k)
    ensures k < |run[i + 1].loops|
    ensures BringsSome(run[j], events[j], k) ==>
              run[i + 1].loops[k] ==
              if run[i].closed || !run[i].running then Stopped else WaitingForSlot(Pending, false)
    ensures BringsNothing(maxConcurrentRuns, run[j], events[j], k, Pending) ==>
              run[i + 1].loops[k] == WaitingForSlot(New, run[i].inFlightMessages == {})
    ensures BringsNothing(maxConcurrentRuns, run[j], events[j], k, New) ==> run[i + 1].loops[k] == Sleeping
  {
    hide Next, Enabled, BringsSome, BringsNothing, InitialState;
    OwnEventMoves(maxConcurrentRuns, run[j], events[j], k);
    DoneMeaning(maxConcurrentRuns, run[j], events[j], k);
    StandsSince(maxConcurrentRuns, run, events, j, i, k);
    LoopsOnlyGrow(maxConcurrentRuns, run[i], events[i]);
    if run[i].loops[k].BatchDone? {
      ResumeFrom(maxConcurrentRuns, run[i], k);
    }
  }

  // ----- when a loop is to stop

  lemma {:induction false} TrackAllKeepsFlags(s: LoopState, messages: seq<MessageId>)
    ensures var s' := TrackAll(s, messages);
            s'.running == s.running && s'.closed == s.closed && s'.subscribed == s.subscribed && s'.loops == s.loops
    decreases |messages|
  {
    if messages != [] {
      TrackAllKeepsFlags(s, messages[1..]);
      TrackAllKeepsFlags(Track(s, messages[0]), messages[1..]);
    }
  }

  lemma FlagsStep(maxConcurrentRuns: nat, s: LoopState, event: Event)
    requires Enabled(maxConcurrentRuns, s, event)
    ensures var s' := Next(maxConcurrentRuns, s, event);
            && (s'.closed <==> s.closed || event.Close?)
            && (s'.running <==> event.Subscribe? || (s.running && !event.Unsubscribe? && !event.Close?))
            && (s'.subscribed <==> event.Subscribe? || (s.subscribed && !event.Unsubscribe?))
            && |s'.loops| == |s.loops| + (if event.Subscribe? && !s.running then 1 else 0)
  {
    hide TrackAll;
    if event.Batch? {
      TrackAllGrows(s, event.messages);
      TrackAllKeepsFlags(s, event.messages);
    }
  }

  /** In every run the queue is closed exactly if it was closed once, and it runs exactly if it was subscribed to and
      neither unsubscribed from nor closed since. */
  lemma {:induction false} FlagsTell(maxConcurrentRuns: nat, run: seq<LoopState>, events: seq<Event>, i: nat)
    requires TakesAll(maxConcurrentRuns, run, events) && i < |run|
    ensures run[i].closed <==> exists j :: 0 <= j < i && events[j].Close?
    ensures run[i].running <==>
            exists j :: 0 <= j < i && events[j].Subscribe?
              && forall k | j < k < i :: !events[k].Unsubscribe? && !events[k].Close?
    decreases i
  {
    hide Next, Enabled, InitialState;
    if i == 0 {
      NoLoopAtFirst(maxConcurrentRuns, run, events);
    } else {
      var last := i - 1;
      FlagsTell(maxConcurrentRuns, run, events, last);
      FlagsStep(maxConcurrentRuns, run[last], events[last]);
      if run[last].running && !events[last].Unsubscribe? && !events[last].Close? {
        var j :| 0 <= j < last && events[j].Subscribe?
                 && forall k | j < k < last :: !events[k].Unsubscribe? && !events[k].Close?;
        assert forall k | j < k < i :: !events[k].Unsubscribe? && !events[k].Close?;
      }
    }
  }

  /** It has a handler exactly if that has not been taken away since it was given. */
  lemma {:induction false} HandlerTells(maxConcurrentRuns: nat, run: seq<LoopState>, events: seq<Event>, i: nat)
    requires TakesAll(maxConcurrentRuns, run, events) && i < |run|
    ensures run[i].subscribed <==>
            exists j :: 0 <= j < i && events[j].Subscribe? && forall k | j < k < i :: !events[k].Unsubscribe?
    decreases i
  {
    hide Next, Enabled, InitialState;
    if i == 0 {
      NoLoopAtFirst(maxConcurrentRuns, run, events);
    } else {
      var last := i - 1;
      HandlerTells(maxConcurrentRuns, run, events, last);
      FlagsStep(maxConcurrentRuns, run[last], events[last]);
      if run[last].subscribed && !events[last].Unsubscribe? {
        var j :| 0 <= j < last && events[j].Subscribe? && forall k | j < k < last :: !events[k].Unsubscribe?;
        assert forall k | j < k < i :: !events[k].Unsubscribe?;
      }
    }
  }

  // ----- what is in flight

  lemma {:induction false} TrackAllTakes(s: LoopState, messages: seq<MessageId>, id: MessageId)
    ensures id in TrackAll(s, messages).inFlightMessageIds <==> id in s.inFlightMessageIds || id in messages
    decreases |messages|
  {
    if messages != [] {
      assert messages == [messages[0]] + messages[1..];
      TrackAllTakes(s, messages[1..], id);
      TrackAllTakes(Track(s, messages[0]), messages[1..], id);
    }
  }

  /** A message is in flight from the batch that brings it until its task settles. */
  lemma InFlightChangesExactly(maxConcurrentRuns: nat, s: LoopState, event: Event, id: MessageId)
    requires Enabled(maxConcurrentRuns, s, event)
    ensures id in Next(maxConcurrentRuns, s, event).inFlightMessageIds <==>
            if event.Batch? then id in s.inFlightMessageIds || id in event.messages
            else id in s.inFlightMessageIds && !(event.Settle? && s.tasks[event.task] == id)
  {
    hide TrackAll;
    if event.Batch? {
      TrackAllTakes(s, event.messages, id);
    }
  }

  // ----- the loop comes to read new entries

  /** The loop is moved on, and every read brings nothing. */
  function DriveEvent(s: LoopState, k: nat): Event
    requires k < |s.loops|
  {
    if s.loops[k].Reading? then Batch(k, []) else Resume(k)
  }

  ghost predicate Drives(maxConcurrentRuns: nat, run: seq<LoopState>, k: nat) {
    && run != []
    && (forall i | 0 <= i < |run| :: k < |run[i].loops|)
    && forall i | 0 <= i < |run| - 1 ::
         && Enabled(maxConcurrentRuns, run[i], DriveEvent(run[i], k))
         && run[i + 1] == Next(maxConcurrentRuns, run[i], DriveEvent(run[i], k))
  }

  /** The loop runs, and there is a slot. */
  predicate CanRead(maxConcurrentRuns: nat, s: LoopState) {
    s.subscribed && s.running && !s.closed && |s.inFlightMessages| < maxConcurrentRuns
  }

  function NewRead(maxConcurrentRuns: nat, s: LoopState): Pc
    requires CanRead(maxConcurrentRuns, s)
  {
    var slots := maxConcurrentRuns - |s.inFlightMessages|;
    Reading(New, s.inFlightMessages == {}, if slots < 10 then slots else 10)
  }

  lemma DriveOne(maxConcurrentRuns: nat, s: LoopState, k: nat)
    requires CanRead(maxConcurrentRuns, s) && k < |s.loops| && s.loops[k] != Stopped
    ensures var event := DriveEvent(s, k);
            && Enabled(maxConcurrentRuns, s, event)
            && Next(maxConcurrentRuns, s, event) ==
               s.(loops := s.loops[k :=
                    match s.loops[k]
                    case Reading(position, _, _) => BatchDone(position, false)
                    case pc => Resumed(maxConcurrentRuns, s, pc)])
  {
    TrackAllOfNothing(s);
  }

  /** How many steps the loop is away from its next read of new entries. */
  function StepsToNewRead(pc: Pc): nat {
    match pc
    case Reading(position, _, _) => if position == Pending then 3 else 7
    case BatchDone(position, handled) => if handled then 5 else if position == Pending then 2 else 6
    case WaitingForSlot(position, _) => if position == Pending then 4 else 1
    case _ => 5
  }

  /** The wait for new entries was begun with what is in flight now. */
  predicate BlocksRightly(s: LoopState, pc: Pc) {
    pc.WaitingForSlot? && pc.position == New ==> (pc.block <==> s.inFlightMessages == {})
  }

  lemma {:induction false} DriveToNewRead(maxConcurrentRuns: nat, s: LoopState, k: nat) returns (run: seq<LoopState>)
    requires CanRead(maxConcurrentRuns, s) && k < |s.loops| && s.loops[k] != Stopped && BlocksRightly(s, s.loops[k])
    ensures Drives(maxConcurrentRuns, run, k) && run[0] == s && 1 < |run| == StepsToNewRead(s.loops[k]) + 1
    ensures run[|run| - 1] == s.(loops := s.loops[k := NewRead(maxConcurrentRuns, s)])
    decreases StepsToNewRead(s.loops[k])
  {
    hide Enabled, Next;
    DriveOne(maxConcurrentRuns, s, k);
    var s' := Next(maxConcurrentRuns, s, DriveEvent(s, k));
    if s.loops[k].WaitingForSlot? && s.loops[k].position == New {
      run := [s, s'];
    } else {
      var rest := DriveToNewRead(maxConcurrentRuns, s', k);
      run := [s] + rest;
      DrivesLonger(maxConcurrentRuns, s, rest, k);
    }
  }

  lemma DrivesLonger(maxConcurrentRuns: nat, s: LoopState, rest: seq<LoopState>, k: nat)
    requires Drives(maxConcurrentRuns, rest, k) && k < |s.loops|
    requires Enabled(maxConcurrentRuns, s, DriveEvent(s, k)) && rest[0] == Next(maxConcurrentRuns, s, DriveEvent(s, k))
    ensures Drives(maxConcurrentRuns, [s] + rest, k)
  {
    hide Enabled, Next;
    var run := [s] + rest;
    forall i | 0 <= i < |run| - 1
      ensures Enabled(maxConcurrentRuns, run[i], DriveEvent(run[i], k))
      ensures run[i + 1] == Next(maxConcurrentRuns, run[i], DriveEvent(run[i], k))
    {
      if i > 0 {
        assert run[i] == rest[i - 1] && run[i + 1] == rest[i - 1 + 1];
      }
    }
  }

  /** From any state in which the queue runs and a slot is free, moving a live loop on leads in at most 8 steps to a
      read of new entries, which waits for them exactly if nothing is in flight, and asks for as many as there are
      slots, but at most 10. */
  lemma ComesToReadNew(maxConcurrentRuns: nat, s: LoopState, k: nat)
    requires CanRead(maxConcurrentRuns, s) && k < |s.loops| && s.loops[k] != Stopped
    ensures exists run: seq<LoopState> :: Drives(maxConcurrentRuns, run, k) && run[0] == s && 1 < |run| <= 9
              && run[|run| - 1].loops[k] == NewRead(maxConcurrentRuns, s)
  {
    hide Enabled, Next, Drives;
    if BlocksRightly(s, s.loops[k]) {
      var run := DriveToNewRead(maxConcurrentRuns, s, k);
    } else {
      DriveOne(maxConcurrentRuns, s, k);
      var s' := Next(maxConcurrentRuns, s, DriveEvent(s, k));
      var rest := DriveToNewRead(maxConcurrentRuns, s', k);
      DrivesLonger(maxConcurrentRuns, s, rest, k);
      var run := [s] + rest;
      assert run[|run| - 1] == rest[|rest| - 1];
    }
  }

  /** In every reachable state a queue that runs and is not closed has a handler and a live loop, the latest one. */
  lemma {:induction false} RunningMeansAlive(maxConcurrentRuns: nat, run: seq<LoopState>, events: seq<Event>, i: nat)
    requires TakesAll(maxConcurrentRuns, run, events) && i < |run|
    ensures run[i].running ==> run[i].subscribed
    ensures run[i].running && !run[i].closed ==>
              run[i].loops != [] && run[i].loops[|run[i].loops| - 1] != Stopped
    decreases i
  {
    hide Next, Enabled, InitialState;
    if i == 0 {
      NoLoopAtFirst(maxConcurrentRuns, run, events);
    } else {
      RunningMeansAlive(maxConcurrentRuns, run, events, i - 1);
      AliveStep(maxConcurrentRuns, run[i - 1], events[i - 1]);
    }
  }

  ghost predicate Alive(s: LoopState) {
    && (s.running ==> s.subscribed)
    && (s.running && !s.closed ==> s.loops != [] && s.loops[|s.loops| - 1] != Stopped)
  }

  lemma AliveStep(maxConcurrentRuns: nat, s: LoopState, event: Event)
    requires Alive(s) && Enabled(maxConcurrentRuns, s, event)
    ensures Alive(Next(maxConcurrentRuns, s, event))
  {
    hide TrackAll;
    if event.Batch? {
      TrackAllGrows(s, event.messages);
      TrackAllKeepsFlags(s, event.messages);
    }
  }

  predicate IsToStop(s: LoopState) {
    s.closed || !s.running
  }

  /** A loop gives up its wait for a slot without a read only if it is to stop; otherwise it reads, with what it waited
      for and for as many messages as there are slots, but at most 10. */
  lemma ReadIsIssuedUnlessStopping(maxConcurrentRuns: nat, run: seq<LoopState>, events: seq<Event>, i: nat, k: nat)
    requires TakesAll(maxConcurrentRuns, run, events) && i < |events| && events[i] == Resume(k)
    requires k < |run[i].loops| && run[i].loops[k].WaitingForSlot? && !IsToStop(run[i])
    ensures |run[i].inFlightMessages| < maxConcurrentRuns && k < |run[i + 1].loops|
    ensures var slots := maxConcurrentRuns - |run[i].inFlightMessages|;
            run[i + 1].loops[k] ==
            Reading(run[i].loops[k].position, run[i].loops[k].block, if slots < 10 then slots else 10)
  {
    RunningMeansAlive(maxConcurrentRuns, run, events, i);
  }

  // ----- the loop comes to its end

  lemma DriveOneToStop(maxConcurrentRuns: nat, s: LoopState, k: nat)
    requires IsToStop(s) && k < |s.loops| && s.loops[k] != Stopped
    ensures var event := DriveEvent(s, k);
            && Enabled(maxConcurrentRuns, s, event)
            && Next(maxConcurrentRuns, s, event) ==
               s.(loops := s.loops[k :=
                    match s.loops[k]
                    case Reading(position, _, _) => BatchDone(position, false)
                    case pc => Resumed(maxConcurrentRuns, s, pc)])
  {
    TrackAllOfNothing(s);
  }

  function StepsToEnd(pc: Pc): nat {
    match pc
    case Stopped => 0
    case Starting => 1
    case Sleeping => 1
    case BatchDone(position, handled) => if handled then 1 else if position == New then 2 else 5
    case Reading(position, _, _) => if position == New then 3 else 6
    case WaitingForSlot(position, _) => if position == New then 4 else 7
  }

  /** A loop that is to stop does so: moved on, it ends after at most 7 steps. */
  lemma {:induction false} ComesToItsEnd(maxConcurrentRuns: nat, s: LoopState, k: nat) returns (run: seq<LoopState>)
    requires IsToStop(s) && k < |s.loops|
    ensures Drives(maxConcurrentRuns, run, k) && run[0] == s && |run| <= StepsToEnd(s.loops[k]) + 1 <= 8
    ensures run[|run| - 1] == s.(loops := s.loops[k := Stopped])
    decreases StepsToEnd(s.loops[k])
  {
    hide Enabled, Next;
    if s.loops[k] == Stopped {
      run := [s];
    } else {
      DriveOneToStop(maxConcurrentRuns, s, k);
      var s' := Next(maxConcurrentRuns, s, DriveEvent(s, k));
      var rest := ComesToItsEnd(maxConcurrentRuns, s', k);
      run := [s] + rest;
      DrivesLonger(maxConcurrentRuns, s, rest, k);
    }
  }
}
