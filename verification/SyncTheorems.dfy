/** What holds of every run of the API-mode scan protocol, however its steps interleave. */
module SyncTheorems {
  import opened Wrappers
  import opened SyncProtocol

  // ----- the event grammar

  /** `n` full scans, one after another. */
  function Syncs(n: nat): seq<Event> {
    if n == 0 then [] else Syncs(n - 1) + [SyncStarted, SyncStopped]
  }

  /** A connection with `n` full scans. */
  function Session(n: nat): seq<Event> { [Connected] + Syncs(n) + [Disconnected] }

  function Sessions(ns: seq<nat>): seq<Event> {
    if ns == [] then [] else Sessions(ns[..|ns| - 1]) + Session(ns[|ns| - 1])
  }

  /** Events without height updates. */
  function Erased(events: seq<Event>): seq<Event> {
    if events == [] then []
    else
      var last := events[|events| - 1];
      Erased(events[..|events| - 1]) + (if last == BlockHeightUpdated then [] else [last])
  }

  datatype Phase = Off | On | Syncing

  function PhaseOf(s: State): Phase {
    if !s.isConnected then Off else if s.scan.isFullScan then Syncing else On
  }

  function NextPhase(phase: Phase, e: Event): Option<Phase> {
    match (phase, e)
    case (Off, Connected) => Some(On)
    case (On, SyncStarted) => Some(Syncing)
    case (Syncing, SyncStopped) => Some(On)
    case (On, Disconnected) => Some(Off)
    case _ => None
  }

  function PhaseAfter(phase: Phase, events: seq<Event>): Option<Phase> {
    if events == [] then Some(phase)
    else
      var mid := PhaseAfter(phase, events[..|events| - 1]);
      if mid.None? then None else NextPhase(mid.value, events[|events| - 1])
  }

  /** The events up to a phase, as the grammar spells them. */
  ghost predicate Spelled(events: seq<Event>, phase: Phase) {
    match phase
    case Off => exists ns: seq<nat> :: events == Sessions(ns)
    case On => exists ns: seq<nat>, n: nat :: events == Sessions(ns) + ([Connected] + Syncs(n))
    case Syncing => exists ns: seq<nat>, n: nat :: events == Sessions(ns) + ([Connected] + Syncs(n)) + [SyncStarted]
  }

  lemma SpelledStep(events: seq<Event>, phase: Phase, e: Event)
    requires Spelled(events, phase) && NextPhase(phase, e).Some?
    ensures Spelled(events + [e], NextPhase(phase, e).value)
  {
    hide Sessions, Syncs, Session;
    match phase
    case Off =>
      var ns: seq<nat> :| events == Sessions(ns);
      OpenSession(ns);
    case On =>
      var ns: seq<nat>, n: nat :| events == Sessions(ns) + ([Connected] + Syncs(n));
      if e == Disconnected {
        CloseSession(ns, n);
      }
    case Syncing =>
      var ns: seq<nat>, n: nat :| events == Sessions(ns) + ([Connected] + Syncs(n)) + [SyncStarted];
      CloseSync(ns, n);
  }

  lemma OpenSession(ns: seq<nat>)
    ensures Sessions(ns) + [Connected] == Sessions(ns) + ([Connected] + Syncs(0))
  {
    assert [Connected] + Syncs(0) == [Connected];
  }

  lemma CloseSession(ns: seq<nat>, n: nat)
    ensures Sessions(ns) + ([Connected] + Syncs(n)) + [Disconnected] == Sessions(ns + [n])
  {
    assert (ns + [n])[..|ns|] == ns;
    assert ([Connected] + Syncs(n)) + [Disconnected] == Session(n);
  }

  lemma CloseSync(ns: seq<nat>, n: nat)
    ensures Sessions(ns) + ([Connected] + Syncs(n)) + [SyncStarted] + [SyncStopped] == Sessions(ns) + ([Connected] + Syncs(n + 1))
  {
    assert Syncs(n + 1) == Syncs(n) + [SyncStarted, SyncStopped];
  }

  lemma {:induction false} SpelledAll(events: seq<Event>)
    requires PhaseAfter(Off, events).Some?
    ensures Spelled(events, PhaseAfter(Off, events).value)
  {
    if events == [] {
      assert Sessions([]) == events;
    } else {
      hide Spelled;
      var init, last := events[..|events| - 1], events[|events| - 1];
      SpelledAll(init);
      SpelledStep(init, PhaseAfter(Off, init).value, last);
      assert events == init + [last];
    }
  }

  /** Whatever was spelled so far can be completed to whole sessions. */
  lemma SpelledIsPrefix(events: seq<Event>, phase: Phase)
    requires Spelled(events, phase)
    ensures exists ns: seq<nat> :: events <= Sessions(ns)
  {
    match phase
    case Off =>
      var ns: seq<nat> :| events == Sessions(ns);
      assert events <= Sessions(ns);
    case On =>
      SpelledStep(events, On, Disconnected);
      var ns: seq<nat> :| events + [Disconnected] == Sessions(ns);
      assert events <= Sessions(ns);
    case Syncing =>
      SpelledStep(events, Syncing, SyncStopped);
      SpelledStep(events + [SyncStopped], On, Disconnected);
      var ns: seq<nat> :| events + [SyncStopped] + [Disconnected] == Sessions(ns);
      assert events <= Sessions(ns);
  }

  // ----- the relation between consecutive events

  /** `BRWalletManagerEventTypeIsValidPair`. */
  predicate IsValidPair(t1: Event, t2: Event) {
    match t1
    case Created => t2 in {Connected, BlockHeightUpdated, SyncRecommended}
    case Connected => t2 in {Disconnected, SyncStarted, BlockHeightUpdated, SyncRecommended}
    case Disconnected => t2 in {Connected, BlockHeightUpdated, SyncRecommended}
    case SyncStarted => t2 in {SyncProgress, SyncStopped, BlockHeightUpdated, SyncRecommended}
    case SyncProgress => t2 in {SyncProgress, SyncStopped, BlockHeightUpdated, SyncRecommended}
    case SyncStopped => t2 in {Disconnected, SyncStarted, BlockHeightUpdated, SyncRecommended}
    case SyncRecommended => t2 != Created
    case BlockHeightUpdated => t2 != Created
  }

  predicate AllValidPairs(events: seq<Event>) {
    forall i :: 0 < i < |events| ==> IsValidPair(events[i - 1], events[i])
  }

  /** The events that can stand last in a phase. */
  predicate EndsIn(e: Event, phase: Phase) {
    || e == BlockHeightUpdated
    || match phase
       case Off => e == Created || e == Disconnected
       case On => e == Connected || e == SyncStopped
       case Syncing => e == SyncStarted
  }

  lemma PhaseStep(init: seq<Event>, last: Event)
    requires PhaseAfter(Off, Erased(init + [last])).Some?
    ensures PhaseAfter(Off, Erased(init)).Some?
    ensures var phase, next := PhaseAfter(Off, Erased(init)).value, PhaseAfter(Off, Erased(init + [last])).value;
            if last == BlockHeightUpdated then phase == next else NextPhase(phase, last) == Some(next)
  {
    assert (init + [last])[..|init|] == init;
    if last == BlockHeightUpdated {
      assert Erased(init + [last]) == Erased(init);
    } else {
      assert Erased(init + [last])[..|Erased(init)|] == Erased(init);
    }
  }

  lemma PairFits(e: Event, f: Event, phase: Phase, next: Phase)
    requires EndsIn(e, phase)
    requires if f == BlockHeightUpdated then phase == next else NextPhase(phase, f) == Some(next)
    ensures IsValidPair(e, f) && EndsIn(f, next)
  {
  }

  lemma PairsAppend(events: seq<Event>, e: Event)
    requires events != [] && AllValidPairs(events) && IsValidPair(events[|events| - 1], e)
    ensures AllValidPairs(events + [e])
  {
    hide IsValidPair;
  }

  /** The grammar implies the relation, with or without height updates. */
  lemma {:induction false} GrammarIsValid(events: seq<Event>)
    requires PhaseAfter(Off, Erased(events)).Some?
    ensures AllValidPairs([Created] + events)
    ensures EndsIn(([Created] + events)[|events|], PhaseAfter(Off, Erased(events)).value)
  {
    if events != [] {
      hide PhaseAfter, Erased, IsValidPair, EndsIn, NextPhase, AllValidPairs;
      var init, last := events[..|events| - 1], events[|events| - 1];
      assert events == init + [last];
      PhaseStep(init, last);
      GrammarIsValid(init);
      PairFits(([Created] + init)[|init|], last, PhaseAfter(Off, Erased(init)).value, PhaseAfter(Off, Erased(events)).value);
      assert [Created] + events == ([Created] + init) + [last];
      PairsAppend([Created] + init, last);
    }
  }

  lemma {:induction false} ErasedTwice(events: seq<Event>)
    ensures Erased(Erased(events)) == Erased(events)
  {
    if events != [] {
      var init, last := events[..|events| - 1], events[|events| - 1];
      ErasedTwice(init);
      if last != BlockHeightUpdated {
        assert (Erased(init) + [last])[..|Erased(init)|] == Erased(init);
      } else {
        assert Erased(events) == Erased(init);
      }
    }
  }

  lemma {:induction false} PhaseAfterConcat(phase: Phase, a: seq<Event>, b: seq<Event>)
    requires PhaseAfter(phase, a).Some?
    ensures PhaseAfter(phase, a + b) == PhaseAfter(PhaseAfter(phase, a).value, b)
  {
    if b == [] {
      assert a + b == a;
    } else {
      var init, last := b[..|b| - 1], b[|b| - 1];
      PhaseAfterConcat(phase, a, init);
      assert (a + b)[..|a + b| - 1] == a + init;
    }
  }

  lemma ErasedAppend(events: seq<Event>, e: Event)
    ensures Erased(events + [e]) == Erased(events) + (if e == BlockHeightUpdated then [] else [e])
  {
    assert (events + [e])[..|events|] == events;
  }

  lemma {:induction false} ErasedConcat(a: seq<Event>, b: seq<Event>)
    ensures Erased(a + b) == Erased(a) + Erased(b)
  {
    if b == [] {
      assert a + b == a;
    } else {
      hide Erased;
      var init, last := b[..|b| - 1], b[|b| - 1];
      ErasedConcat(a, init);
      assert b == init + [last] && a + b == (a + init) + [last];
      ErasedAppend(init, last);
      ErasedAppend(a + init, last);
    }
  }

  lemma NoEvents(phase: Phase)
    ensures Erased([]) == [] && PhaseAfter(phase, []) == Some(phase)
  {
  }

  lemma OneEvent(phase: Phase, e: Event)
    ensures Erased([e]) == if e == BlockHeightUpdated then [] else [e]
    ensures PhaseAfter(phase, [e]) == NextPhase(phase, e)
  {
    assert [e][..0] == [];
  }

  lemma AtMostOne(phase: Phase, events: seq<Event>)
    requires |events| <= 1 && BlockHeightUpdated !in events
    ensures Erased(events) == events
    ensures PhaseAfter(phase, events) == if events == [] then Some(phase) else NextPhase(phase, events[0])
  {
    if events == [] {
      NoEvents(phase);
    } else {
      assert events[0] in events;
      OneEvent(phase, events[0]);
      assert events == [events[0]];
    }
  }

  /** An optional event, then at most one more. */
  lemma EventsLead(phase: Phase, first: seq<Event>, second: seq<Event>, next: Phase)
    requires |first| <= 1 && |second| <= 1 && BlockHeightUpdated !in first && BlockHeightUpdated !in second
    requires first == [] || NextPhase(phase, first[0]) == Some(next)
    requires first == [] ==> phase == next
    ensures PhaseAfter(phase, Erased(first + second)) == if second == [] then Some(next) else NextPhase(next, second[0])
  {
    hide Erased, PhaseAfter, NextPhase;
    AtMostOne(phase, first);
    AtMostOne(next, second);
    ErasedConcat(first, second);
    PhaseAfterConcat(phase, first, second);
  }

  /** The events of one step lead from the phase before to the phase after. */
  lemma StepPhase(s: State, action: Action)
    requires Valid(s) && IsAllowed(action)
    ensures var (s', o) := Step(s, action); PhaseAfter(PhaseOf(s), Erased(o.events)) == Some(PhaseOf(s'))
  {
    hide PhaseAfter, Erased;
    var (s', o) := Step(s, action);
    var stopped := StoppedIf(s.scan);
    var up := if s.isConnected then On else Off;
    NoEvents(PhaseOf(s));
    EventsLead(PhaseOf(s), stopped, [], up);
    assert stopped + [] == stopped;
    EventsLead(PhaseOf(s), stopped, [Disconnected], up);
    OneEvent(PhaseOf(s), BlockHeightUpdated);
    OneEvent(PhaseOf(s), Connected);
    OneEvent(PhaseOf(s), SyncStarted);
    if action.ScanToDepth? && s.isConnected {
      assert o.events == (stopped + [Disconnected]) + [Connected];
      ErasedConcat(stopped + [Disconnected], [Connected]);
      PhaseAfterConcat(PhaseOf(s), Erased(stopped + [Disconnected]), Erased([Connected]));
      OneEvent(Off, Connected);
    }
  }

  // ----- runs

  /** The ids of completed scans are not used again. */
  ghost predicate Past(s: State, o: Output) {
    forall i :: 0 <= i < |o.completions| ==>
      && o.completions[i].requestId <= s.lastRequestId
      && (IsInProgress(s.scan) ==> o.completions[i].requestId != s.scan.requestId)
  }

  /** What a run guarantees about the state it reaches and everything it put out. */
  ghost predicate Sound(s: State, o: Output) {
    && Valid(s)
    && Covered(o.completions, s.initHeight, s.syncedHeight)
    && Accounted(s, o.requests) && Past(s, o)
    && (forall i :: 0 <= i < |o.completions| ==> FullyRequested(o.requests, o.completions[i]))
    && PhaseAfter(Off, Erased(o.events)) == Some(PhaseOf(s))
  }

  lemma FullyRequestedStays(requests: seq<Request>, more: seq<Request>, c: Completion)
    requires FullyRequested(requests, c) && |more| <= 1 && (more != [] ==> more[0].requestId != c.requestId)
    ensures FullyRequested(requests + more, c)
  {
    if more != [] {
      RequestedAppend(requests, more[0], c.requestId);
      assert requests + more == requests + [more[0]];
      var end :| end >= c.end && OneRange(requests, c.requestId, c.beg, end);
      assert OneRange(requests + more, c.requestId, c.beg, end);
    } else {
      assert requests + more == requests;
    }
  }

  /** What one step puts out carries the id of the scan before it, or a fresh one. */
  lemma StepIds(s: State, action: Action)
    requires Valid(s) && IsAllowed(action)
    ensures var (s', o) := Step(s, action);
            && |o.requests| <= 1 && |o.completions| <= 1
            && (o.completions != [] ==> o.requests == [] && !IsInProgress(s'.scan) && IsInProgress(s.scan)
                                        && o.completions[0].requestId == s.scan.requestId)
            && (o.requests != [] ==> IsInProgress(s'.scan) && o.requests[0].requestId == s'.scan.requestId)
            && (IsInProgress(s'.scan) ==> s'.scan.requestId == if IsInProgress(s.scan) then s.scan.requestId else s.lastRequestId + 1)
  {
  }

  lemma StepKeepsSound(s: State, h: Output, action: Action)
    requires Sound(s, h) && IsAllowed(action)
    ensures var (s', o) := Step(s, action); Sound(s', Join(h, o))
  {
    hide Step, Valid, Covered, Accounted, FullyRequested, PhaseOf, PhaseAfter, Erased;
    var (s', o) := Step(s, action);
    StepKeepsValid(s, action);
    StepCovers(s, h.completions, action);
    StepAccounts(s, h.requests, action);
    StepIds(s, action);
    IdsInOrder(s);
    StepPhase(s, action);
    ErasedConcat(h.events, o.events);
    PhaseAfterConcat(Off, Erased(h.events), Erased(o.events));
    var all := Join(h, o);
    forall i | 0 <= i < |all.completions| ensures FullyRequested(all.requests, all.completions[i]) {
      FullyRequestedStays(h.requests, o.requests, all.completions[i]);
    }
  }

  lemma IdsInOrder(s: State)
    requires Valid(s)
    ensures IsInProgress(s.scan) ==> 0 < s.scan.requestId <= s.lastRequestId
  {
  }

  /** Every run from a new manager is sound: heights stay in order, every block between the initial
      and the synced height was covered by a completed scan, each completed scan had requested all
      its addresses over its range, and the events are in step with the state. */
  lemma {:induction false} RunIsSound(checkpointHeight: nat, blockHeight: nat, actions: seq<Action>)
    requires checkpointHeight < BLOCK_HEIGHT_UNBOUND && blockHeight < BLOCK_HEIGHT_UNBOUND
    requires forall i :: 0 <= i < |actions| ==> IsAllowed(actions[i])
    ensures var (s, o) := Run(New(checkpointHeight, blockHeight), actions); Sound(s, o)
  {
    if actions != [] {
      hide Sound, Step;
      var init, last := actions[..|actions| - 1], actions[|actions| - 1];
      RunIsSound(checkpointHeight, blockHeight, init);
      var (mid, h) := Run(New(checkpointHeight, blockHeight), init);
      StepKeepsSound(mid, h, last);
    }
  }

  /** The events of every run are a prefix of whole sessions, and each follows the one before it in
      the wallet manager's relation. */
  lemma EventsFollowProtocol(checkpointHeight: nat, blockHeight: nat, actions: seq<Action>)
    requires checkpointHeight < BLOCK_HEIGHT_UNBOUND && blockHeight < BLOCK_HEIGHT_UNBOUND
    requires forall i :: 0 <= i < |actions| ==> IsAllowed(actions[i])
    ensures var events := Run(New(checkpointHeight, blockHeight), actions).1.events;
            && (exists ns: seq<nat> :: Erased(events) <= Sessions(ns))
            && AllValidPairs([Created] + events) && AllValidPairs([Created] + Erased(events))
  {
    hide Run, Spelled, Covered, Accounted, FullyRequested, Valid;
    RunIsSound(checkpointHeight, blockHeight, actions);
    var events := Run(New(checkpointHeight, blockHeight), actions).1.events;
    SpelledAll(Erased(events));
    SpelledIsPrefix(Erased(events), PhaseAfter(Off, Erased(events)).value);
    GrammarIsValid(events);
    ErasedTwice(events);
    GrammarIsValid(Erased(events));
  }

  /** Once a scan is over its id is dead: after any further steps, a completion that carries it
      changes nothing and puts nothing out. */
  lemma {:induction false} OldIdsAreIgnored(s: State, requestId: nat, actions: seq<Action>, success: bool, a: Addresses)
    requires Valid(s) && forall i :: 0 <= i < |actions| ==> IsAllowed(actions[i])
    requires 0 < requestId <= s.lastRequestId && requestId != s.scan.requestId
    ensures var s' := Run(s, actions).0;
            && Valid(s') && requestId <= s'.lastRequestId && requestId != s'.scan.requestId
            && Step(s', AnnounceDone(requestId, success, a)) == (s', NOTHING)
    decreases |actions|
  {
    if actions != [] {
      hide Step, Valid;
      var init, last := actions[..|actions| - 1], actions[|actions| - 1];
      OldIdsAreIgnored(s, requestId, init, success, a);
      var mid := Run(s, init).0;
      StepKeepsValid(mid, last);
      StepIds(mid, last);
      DeadIdIgnored(Run(s, actions).0, requestId, success, a);
    } else {
      DeadIdIgnored(s, requestId, success, a);
    }
  }

  lemma DeadIdIgnored(s: State, requestId: nat, success: bool, a: Addresses)
    requires Valid(s) && requestId != s.scan.requestId
    ensures Step(s, AnnounceDone(requestId, success, a)) == (s, NOTHING)
  {
  }
}
