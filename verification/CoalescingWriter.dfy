/** The coalescing writer: callers submit values, one write is outstanding at a time, and values submitted meanwhile are
    coalesced into the latest one.

    Callers are numbered in the order of their submissions, so the caller's number is also the place of its value. */
module CoalescingWriter {
  import opened Wrappers

  type Caller = nat

  /** The promise of a caller is resolved or rejected with the outcome of a write. */
  datatype Settlement = Settlement(caller: Caller, write: nat, ok: bool)

  /** The closure variables of the writer, and the history of its calls and writes.
      writes holds, for each write begun, the place of the written value among the submitted ones. */
  datatype WriterState<V> = WriterState(
    isWriting: bool,
    hasPendingValue: bool,
    pendingValue: Option<V>,
    pendingWaiters: seq<Caller>,
    waiters: seq<Caller>,
    submitted: seq<V>,
    written: seq<V>,
    writes: seq<nat>,
    outcomes: seq<bool>,
    settlements: seq<Settlement>
  )

  datatype Event<V> = Submit(value: V) | WriteEnds(ok: bool)

  function InitialState<V>(): WriterState<V> {
    WriterState(false, false, None, [], [], [], [], [], [], [])
  }

  // ----- one step

  /** The top of the loop in drain: the next write begins, or the writer becomes idle. */
  function DrainTop<V>(s: WriterState<V>): WriterState<V>
    requires s.hasPendingValue ==> s.pendingValue.Some? && s.submitted != []
  {
    if s.hasPendingValue then
      s.(waiters := s.pendingWaiters, hasPendingValue := false, pendingWaiters := [],
         written := s.written + [s.pendingValue.value], writes := s.writes + [|s.submitted| - 1])
    else
      s.(isWriting := false, waiters := [])
  }

  function SettleAll(waiters: seq<Caller>, write: nat, ok: bool): seq<Settlement> {
    if waiters == [] then [] else [Settlement(waiters[0], write, ok)] + SettleAll(waiters[1..], write, ok)
  }

  predicate Enabled<V>(s: WriterState<V>, event: Event<V>) {
    match event
    case Submit(_) => true
    case WriteEnds(_) => s.isWriting && (s.hasPendingValue ==> s.pendingValue.Some? && s.submitted != [])
  }

  function Next<V>(s: WriterState<V>, event: Event<V>): WriterState<V>
    requires Enabled(s, event)
  {
    match event
    case Submit(value) =>
      var added := s.(pendingValue := Some(value), hasPendingValue := true, submitted := s.submitted + [value],
                      pendingWaiters := s.pendingWaiters + [|s.submitted|]);
      if s.isWriting then added else DrainTop(added.(isWriting := true))
    case WriteEnds(ok) =>
      DrainTop(s.(outcomes := s.outcomes + [ok],
                  settlements := s.settlements + SettleAll(s.waiters, |s.outcomes|, ok)))
  }

  ghost predicate Follows<V(!new)>(s: WriterState<V>, s': WriterState<V>) {
    exists event :: Enabled(s, event) && s' == Next(s, event)
  }

  ghost predicate IsRun<V(!new)>(run: seq<WriterState<V>>) {
    run != [] && run[0] == InitialState() && forall i | 0 <= i < |run| - 1 :: Follows(run[i], run[i + 1])
  }

  // ----- what every step keeps

  /** The callers low to high - 1. */
  function Callers(low: nat, high: nat): (callers: seq<Caller>)
    requires low <= high
    ensures |callers| == high - low
    ensures forall k | 0 <= k < |callers| :: callers[k] == low + k
  {
    seq(high - low, k requires 0 <= k => low + k)
  }

  /** How many of the submitted values the first n writes have taken care of. */
  function Covered<V>(s: WriterState<V>, n: nat): nat
    requires n <= |s.writes|
  {
    if n == 0 then 0 else s.writes[n - 1] + 1
  }

  /** The writes so far: places that only grow, and the values at these places. */
  ghost predicate WritesInv<V>(s: WriterState<V>) {
    && |s.writes| == |s.written|
    && (forall k | 0 <= k < |s.writes| :: s.writes[k] < |s.submitted| && s.written[k] == s.submitted[s.writes[k]])
    && (forall j, k | 0 <= j < k < |s.writes| :: s.writes[j] < s.writes[k])
    && |s.outcomes| == (if s.isWriting then |s.writes| - 1 else |s.writes|)
  }

  /** The variables: what is pending, and who waits for what. */
  ghost predicate PendingInv<V>(s: WriterState<V>) {
    && WritesInv(s)
    && s.pendingWaiters == Callers(Covered(s, |s.writes|), |s.submitted|)
    && s.waiters == Callers(Covered(s, |s.outcomes|), Covered(s, |s.writes|))
    && (s.hasPendingValue <==> Covered(s, |s.writes|) < |s.submitted|)
    && (s.hasPendingValue ==> s.pendingValue == Some(s.submitted[|s.submitted| - 1]))
    && (s.hasPendingValue ==> s.isWriting)
  }

  /** The settlement of a caller, by the first write that takes its value or a later one. */
  ghost predicate SettledRight<V>(s: WriterState<V>, caller: Caller, settled: Settlement)
    requires WritesInv(s)
  {
    && settled.caller == caller
    && settled.write < |s.outcomes|
    && settled.ok == s.outcomes[settled.write]
    && Covered(s, settled.write) <= caller <= s.writes[settled.write]
  }

  /** Callers settle once, in the order of their submissions, with the first write that takes their value or a later
      one. */
  ghost predicate SettledInv<V>(s: WriterState<V>)
    requires WritesInv(s)
  {
    && |s.settlements| == Covered(s, |s.outcomes|)
    && forall c | 0 <= c < |s.settlements| :: SettledRight(s, c, s.settlements[c])
  }

  ghost predicate Inv<V>(s: WriterState<V>) {
    PendingInv(s) && SettledInv(s)
  }

  lemma {:induction false} SettleAllIs(low: nat, high: nat, write: nat, ok: bool)
    requires low <= high
    ensures var settled := SettleAll(Callers(low, high), write, ok);
            && |settled| == high - low
            && forall k | 0 <= k < |settled| :: settled[k] == Settlement(low + k, write, ok)
    decreases high - low
  {
    if low < high {
      assert Callers(low, high)[1..] == Callers(low + 1, high);
      SettleAllIs(low + 1, high, write, ok);
    }
  }

  lemma SettleFirst(before: seq<Settlement>, waiters: seq<Caller>, write: nat, ok: bool)
    requires waiters != []
    ensures before + SettleAll(waiters, write, ok) ==
            before + [Settlement(waiters[0], write, ok)] + SettleAll(waiters[1..], write, ok)
  {
  }

  lemma SettleNobody(before: seq<Settlement>, write: nat, ok: bool)
    ensures before + SettleAll([], write, ok) == before
  {
  }

  lemma SubmitWhileWriting<V>(s: WriterState<V>, value: V)
    requires PendingInv(s) && s.isWriting
    ensures PendingInv(Next(s, Submit(value)))
  {
  }

  lemma SubmitWhileIdle<V>(s: WriterState<V>, value: V)
    requires PendingInv(s) && !s.isWriting
    ensures PendingInv(Next(s, Submit(value)))
  {
    assert s.pendingWaiters == [];
  }

  lemma SubmitKeepsPending<V>(s: WriterState<V>, value: V)
    requires Inv(s)
    ensures PendingInv(Next(s, Submit(value)))
  {
    hide PendingInv, SettledInv, Next;
    if s.isWriting {
      SubmitWhileWriting(s, value);
    } else {
      SubmitWhileIdle(s, value);
    }
  }

  lemma SubmitKeepsInv<V>(s: WriterState<V>, value: V)
    requires Inv(s)
    ensures Inv(Next(s, Submit(value)))
  {
    SubmitKeepsPending(s, value);
  }

  lemma WriteEndsKeepsPending<V>(s: WriterState<V>, ok: bool)
    requires Inv(s) && Enabled(s, WriteEnds(ok))
    ensures PendingInv(Next(s, WriteEnds(ok)))
  {
    hide SettledInv, SettleAll;
  }

  lemma CoveredNext<V>(s: WriterState<V>, n: nat)
    requires n < |s.writes|
    ensures Covered(s, n + 1) == s.writes[n] + 1
  {
  }

  /** The end of a write adds an outcome and its settlements, and changes nothing about the earlier writes. */
  lemma CoveredStays<V>(s: WriterState<V>, ok: bool)
    requires WritesInv(s) && Enabled(s, WriteEnds(ok))
    ensures var s' := Next(s, WriteEnds(ok));
            && s.writes <= s'.writes && s'.outcomes == s.outcomes + [ok]
            && s'.settlements == s.settlements + SettleAll(s.waiters, |s.outcomes|, ok)
            && forall n | 0 <= n <= |s.writes| :: Covered(s', n) == Covered(s, n)
  {
    hide SettleAll;
  }

  lemma WriteEndsKeepsSettled<V>(s: WriterState<V>, ok: bool)
    requires Inv(s) && Enabled(s, WriteEnds(ok)) && PendingInv(Next(s, WriteEnds(ok)))
    ensures SettledInv(Next(s, WriteEnds(ok)))
  {
    hide SettleAll, Next, Covered;
    var s' := Next(s, WriteEnds(ok));
    var n := |s.outcomes|;
    assert |s.writes| == n + 1;
    CoveredNext(s, n);
    CoveredStays(s, ok);
    CoveredNext(s', n);
    SettleAllIs(Covered(s, n), Covered(s, n + 1), n, ok);
    forall c | 0 <= c < |s'.settlements|
      ensures SettledRight(s', c, s'.settlements[c])
    {
      if c < |s.settlements| {
        assert s'.settlements[c] == s.settlements[c] && SettledRight(s, c, s.settlements[c]);
      } else {
        assert s'.settlements[c] == Settlement(c, n, ok);
      }
    }
  }

  lemma WriteEndsDrains<V>(s: WriterState<V>, ok: bool)
    requires Enabled(s, WriteEnds(ok))
    ensures Next(s, WriteEnds(ok)) ==
            DrainTop(s.(outcomes := s.outcomes + [ok],
                        settlements := s.settlements + SettleAll(s.waiters, |s.outcomes|, ok)))
  {
  }

  lemma WriteEndsKeepsInv<V>(s: WriterState<V>, ok: bool)
    requires Inv(s) && Enabled(s, WriteEnds(ok))
    ensures Inv(Next(s, WriteEnds(ok)))
  {
    hide PendingInv, SettledInv;
    WriteEndsKeepsPending(s, ok);
    WriteEndsKeepsSettled(s, ok);
  }

  lemma {:induction false} InvHolds<V(!new)>(run: seq<WriterState<V>>, i: nat)
    requires IsRun(run) && i < |run|
    ensures Inv(run[i])
  {
    if i > 0 {
      InvHolds(run, i - 1);
      assert Follows(run[i - 1], run[i - 1 + 1]);
      var event :| Enabled(run[i - 1], event) && run[i] == Next(run[i - 1], event);
      match event
      case Submit(value) => SubmitKeepsInv(run[i - 1], value);
      case WriteEnds(ok) => WriteEndsKeepsInv(run[i - 1], ok);
    }
  }

  // ----- what callers can rely on

  /** At most one write is outstanding: every write but the last has its outcome, and the last has it unless a write is
      on its way. The values written are those at growing places of the submitted ones. */
  lemma OneWriteAtATime<V(!new)>(run: seq<WriterState<V>>, i: nat)
    requires IsRun(run) && i < |run|
    ensures var s := run[i];
            && |s.writes| - 1 <= |s.outcomes| <= |s.writes|
            && (s.isWriting <==> |s.outcomes| < |s.writes|)
            && |s.written| == |s.writes|
            && (forall k | 0 <= k < |s.writes| ::
                  s.writes[k] < |s.submitted| && s.written[k] == s.submitted[s.writes[k]])
            && (forall j, k | 0 <= j < k < |s.writes| :: s.writes[j] < s.writes[k])
  {
    InvHolds(run, i);
  }

  /** No wake-up is lost: whenever the writer is idle, every caller has settled and the last submitted value is the last
      written one. */
  lemma IdleMeansSettled<V(!new)>(run: seq<WriterState<V>>, i: nat)
    requires IsRun(run) && i < |run| && !run[i].isWriting
    ensures var s := run[i];
            && |s.settlements| == |s.submitted|
            && (s.submitted != [] ==>
                  s.writes != [] && |s.written| == |s.writes| && s.writes[|s.writes| - 1] == |s.submitted| - 1
                  && s.written[|s.written| - 1] == s.submitted[|s.submitted| - 1])
  {
    InvHolds(run, i);
  }

  /** A caller that has settled has done so once, as number caller of all settlements, with the outcome of a write that
      began at or after its submission and wrote a value submitted no earlier than its own; no earlier write could have
      done that. */
  lemma SettlesWithItsWrite<V(!new)>(run: seq<WriterState<V>>, i: nat, caller: Caller)
    requires IsRun(run) && i < |run| && caller < |run[i].settlements|
    ensures var s := run[i];
            var settled := s.settlements[caller];
            && settled.caller == caller
            && (forall c | 0 <= c < |s.settlements| && c != caller :: s.settlements[c].caller != caller)
            && settled.write < |s.outcomes| <= |s.writes| && settled.ok == s.outcomes[settled.write]
            && caller <= s.writes[settled.write]
            && (forall k | 0 <= k < settled.write :: s.writes[k] < caller)
  {
    InvHolds(run, i);
  }

  /** A settlement is never taken back or repeated. */
  lemma SettlementsOnlyGrow<V(!new)>(s: WriterState<V>, event: Event<V>)
    requires Inv(s) && Enabled(s, event)
    ensures s.settlements <= Next(s, event).settlements
    ensures s.isWriting && event.WriteEnds? ==> |Next(s, event).settlements| > |s.settlements|
  {
    if event.WriteEnds? {
      SettleAllIs(Covered(s, |s.outcomes|), Covered(s, |s.writes|), |s.outcomes|, event.ok);
    }
  }

  // ----- what a run says

  /** A run with its events. */
  ghost predicate TakesAll<V(!new)>(run: seq<WriterState<V>>, events: seq<Event<V>>) {
    && |run| == |events| + 1 && run[0] == InitialState()
    && forall i | 0 <= i < |events| :: Enabled(run[i], events[i]) && run[i + 1] == Next(run[i], events[i])
  }

  function Values<V>(events: seq<Event<V>>): seq<V> {
    if events == [] then []
    else
      var last := events[|events| - 1];
      Values(events[..|events| - 1]) + if last.Submit? then [last.value] else []
  }

  function Ends<V>(events: seq<Event<V>>): seq<bool> {
    if events == [] then []
    else
      var last := events[|events| - 1];
      Ends(events[..|events| - 1]) + if last.WriteEnds? then [last.ok] else []
  }

  lemma StepIsNoted<V>(s: WriterState<V>, event: Event<V>)
    requires Enabled(s, event)
    ensures Next(s, event).submitted == s.submitted + (if event.Submit? then [event.value] else [])
    ensures Next(s, event).outcomes == s.outcomes + (if event.WriteEnds? then [event.ok] else [])
  {
  }

  /** The history is what has happened: all values submitted and all outcomes of writes, in their order. */
  lemma {:induction false} HistoryIsTrue<V(!new)>(run: seq<WriterState<V>>, events: seq<Event<V>>, i: nat)
    requires TakesAll(run, events) && i < |run|
    ensures run[i].submitted == Values(events[..i]) && run[i].outcomes == Ends(events[..i])
    decreases i
  {
    hide Next, Enabled;
    if i > 0 {
      HistoryIsTrue(run, events, i - 1);
      StepIsNoted(run[i - 1], events[i - 1]);
      assert events[..i][..i - 1] == events[..i - 1];
    }
  }

  /** A write begins exactly when a value is submitted to an idle writer, or when a write ends and a value has been
      submitted since it began; and it writes the latest value. */
  lemma WritesLatest<V>(s: WriterState<V>, event: Event<V>)
    requires Inv(s) && Enabled(s, event)
    ensures var s' := Next(s, event);
            var begins := if event.Submit? then !s.isWriting
                          else s.writes != [] && s.writes[|s.writes| - 1] < |s.submitted| - 1;
            if begins then
              && s'.submitted != [] && s'.writes == s.writes + [|s'.submitted| - 1]
              && s'.written == s.written + [s'.submitted[|s'.submitted| - 1]]
              && s'.isWriting
            else s'.writes == s.writes && s'.written == s.written && (s'.isWriting <==> event.Submit?)
  {
    hide SettleAll, SettledInv;
  }

  // ----- the object

  /** What createCoalescingAsyncWriter returns, with its closure variables. Promises and the calls of the underlying
      writer show in the history fields. */
  class Writer<V(0)> {
    var isWriting: bool
    var hasPendingValue: bool
    var pendingValue: Option<V>
    var pendingWaiters: seq<Caller>
    var waiters: seq<Caller>
    var settlements: seq<Settlement>
    var submitted: seq<V>
    var written: seq<V>
    var writes: seq<nat>
    var outcomes: seq<bool>

    ghost function State(): WriterState<V>
      reads this
    {
      WriterState(isWriting, hasPendingValue, pendingValue, pendingWaiters, waiters, submitted, written, writes,
                  outcomes, settlements)
    }

    ghost predicate Valid()
      reads this
    {
      Inv(State())
    }

    constructor ()
      ensures Valid() && State() == InitialState()
    {
      isWriting, hasPendingValue, pendingValue := false, false, None;
      pendingWaiters, waiters, settlements := [], [], [];
      submitted, written, writes, outcomes := [], [], [], [];
    }

    method SubmitValue(value: V)
      requires Valid()
      modifies this
      ensures Valid() && State() == Next(old(State()), Submit(value))
    {
      hide Inv;
      SubmitKeepsInv(State(), value);
      pendingValue := Some(value);
      hasPendingValue := true;
      pendingWaiters := pendingWaiters + [|submitted|];
      submitted := submitted + [value];
      if isWriting {
        return;
      }
      isWriting := true;
      BeginNextWrite();
    }

    /** The top of the loop in drain, up to the await of the write. */
    method BeginNextWrite()
      requires hasPendingValue ==> pendingValue.Some? && submitted != []
      modifies this
      ensures State() == DrainTop(old(State()))
    {
      if hasPendingValue {
        waiters := pendingWaiters;
        hasPendingValue := false;
        pendingWaiters := [];
        written := written + [pendingValue.value];
        writes := writes + [|submitted| - 1];
      } else {
        isWriting := false;
        waiters := [];
      }
    }

    /** The waiters of the write are resolved or rejected one by one. */
    method SettleWaiters(write: nat, ok: bool)
      modifies this`settlements
      ensures settlements == old(settlements) + SettleAll(waiters, write, ok)
    {
      hide SettleAll;
      var i := 0;
      assert waiters[0..] == waiters;
      while i < |waiters|
        invariant 0 <= i <= |waiters|
        invariant settlements + SettleAll(waiters[i..], write, ok) == old(settlements) + SettleAll(waiters, write, ok)
      {
        SettleFirst(settlements, waiters[i..], write, ok);
        assert waiters[i..][1..] == waiters[i + 1..];
        settlements := settlements + [Settlement(waiters[i], write, ok)];
        i := i + 1;
      }
      assert waiters[i..] == [];
      SettleNobody(settlements, write, ok);
    }

    /** The outstanding write ends, and the loop goes on. */
    method WriteSettles(ok: bool)
      requires Valid() && isWriting
      modifies this
      ensures Valid() && State() == Next(old(State()), WriteEnds(ok))
    {
      assert Enabled(State(), WriteEnds(ok));
      WriteEndsDrains(State(), ok);
      hide Inv, DrainTop, SettleAll, Next;
      WriteEndsKeepsInv(State(), ok);
      SettleWaiters(|outcomes|, ok);
      outcomes := outcomes + [ok];
      BeginNextWrite();
    }
  }
}
