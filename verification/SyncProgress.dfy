/** That scans of bitcoin/BRSyncManager.c make headway: what moves the synced height, what a scan asks for, and
    that one scan with its answers catches up with the network. */
module SyncProgress {
  import opened Wrappers
  import opened SyncProtocol

  /** A new manager starts at the lower of the two heights it is given and takes the higher for the network's. */
  lemma NewExactly(checkpointHeight: nat, blockHeight: nat)
    ensures var s := New(checkpointHeight, blockHeight);
            && s.initHeight == s.syncedHeight <= s.networkHeight && {s.initHeight, s.networkHeight} == {checkpointHeight, blockHeight}
            && !s.isConnected && s.scan.requestId == 0 && s.lastRequestId == 0
  {
  }

  // ----- one step

  /** The synced height moves only with a completed scan, to the last block before its end, and with a scan to a
      depth, back to that depth but no further than to the initial height. */
  lemma SyncedExactly(s: State, action: Action)
    requires Valid(s) && IsAllowed(action)
    ensures var (s', o) := Step(s, action);
            if o.completions != [] then |o.completions| == 1 && s'.syncedHeight + 1 == o.completions[0].end
            else if action.ScanToDepth? && s.isConnected then
              && (action.depthHeight <= s.initHeight ==> s'.syncedHeight == s.initHeight)
              && (s.initHeight <= action.depthHeight <= s.syncedHeight ==> s'.syncedHeight == action.depthHeight)
              && (s.syncedHeight <= action.depthHeight ==> s'.syncedHeight == s.syncedHeight)
            else s'.syncedHeight == s.syncedHeight
  {
  }

  /** The connection opens and closes as told, and closes on a failed request of the scan in progress. */
  lemma ConnectedExactly(s: State, action: Action)
    requires Valid(s) && IsAllowed(action)
    ensures Step(s, action).0.isConnected
       <==> || action.Connect?
            || (s.isConnected && !action.Disconnect?
                && !(action.AnnounceDone? && !action.success && action.requestId == s.scan.requestId))
  {
  }

  /** The network height is the highest announced while connected, and each rise is reported. */
  lemma NetworkExactly(s: State, action: Action)
    requires Valid(s) && IsAllowed(action)
    ensures var (s', o) := Step(s, action);
            && s'.networkHeight == (if action.AnnounceBlockNumber? && s.isConnected && action.height > s.networkHeight
                                    then action.height else s.networkHeight)
            && (BlockHeightUpdated in o.events <==> s'.networkHeight > s.networkHeight)
  {
  }

  /** A scan starts if and only if one is asked for while connected and idle.  It asks at once for all addresses of the
      wallet under a fresh id, over all blocks from the synced height on and the last 144 in any case; it is a
      full scan, reported as such and bounded by the network height, if these are more than 144. */
  lemma StartExactly(s: State, action: Action)
    requires Valid(s) && IsAllowed(action)
    ensures var (s', o) := Step(s, action);
            if action.UpdateTransactions? && s.isConnected && s.scan.requestId == 0 then
              && s'.scan.requestId == s.lastRequestId + 1 == s'.lastRequestId
              && s'.scan.endBlock == s.networkHeight + 1
              && s'.scan.begBlock == (if s.syncedHeight + 144 <= s.networkHeight + 1 then s.syncedHeight
                                      else if s.networkHeight >= 143 then s.networkHeight - 143 else 0)
              && (s'.scan.isFullScan <==> s'.scan.begBlock + 144 < s'.scan.endBlock)
              && o.requests == [Request(s.lastRequestId + 1, action.a.all, s'.scan.begBlock,
                                        if s'.scan.isFullScan then s.networkHeight + 1 else 0xffff_ffff_ffff_ffff)]
              && o.events == if s'.scan.isFullScan then [SyncStarted] else []
            else s'.scan.requestId == 0 || s'.scan.requestId == s.scan.requestId
  {
  }

  /** An answer to the scan in progress: a failure ends it with the connection; new addresses are asked for over the
      same blocks, and nothing else; without any it completes. */
  lemma AnswerExactly(s: State, requestId: nat, success: bool, a: Addresses)
    requires Valid(s) && requestId != 0
    ensures var (s', o) := Step(s, AnnounceDone(requestId, success, a));
            var unknown := if a.external == s.scan.lastExternal && a.internal == s.scan.lastInternal then {}
                         else a.all - s.scan.knownAddresses;
            if requestId != s.scan.requestId then (s', o) == (s, NOTHING)
            else if !success then s'.scan == WIPED && !s'.isConnected && o.completions == [] && o.requests == []
            else if unknown != {} then
              && s'.scan.requestId == requestId && s'.scan.knownAddresses == s.scan.knownAddresses + a.all
              && s'.scan.lastExternal == a.external && s'.scan.lastInternal == a.internal
              && s'.scan.begBlock == s.scan.begBlock && s'.scan.endBlock == s.scan.endBlock
              && o.completions == [] && |o.requests| == 1
              && o.requests[0].requestId == requestId && o.requests[0].addresses == unknown && o.requests[0].beg == s.scan.begBlock
            else s'.scan == WIPED && s'.isConnected && s'.syncedHeight == s.scan.endBlock - 1
                 && o.requests == [] && o.completions != []
  {
  }

  // ----- runs

  /** Ids are handed out one after another, to scans that start and to other requests, while connected. */
  lemma IdsExactly(s: State, action: Action)
    requires Valid(s) && IsAllowed(action)
    ensures var (s', o) := Step(s, action);
            && s'.lastRequestId == s.lastRequestId
                 + (if s.isConnected && (action.Issue? || (action.UpdateTransactions? && s.scan.requestId == 0)) then 1 else 0)
            && (action.Issue? ==> s' == s.(lastRequestId := s'.lastRequestId) && o == NOTHING)
  {
  }

  /** Disconnecting and scanning to a depth end the scan in progress, and say so if it was a full one. */
  lemma ResetExactly(s: State, action: Action)
    requires Valid(s) && (action.Disconnect? || action.ScanToDepth?)
    ensures var (s', o) := Step(s, action);
            if !s.isConnected then (s', o) == (s, NOTHING)
            else
              && s'.scan.requestId == 0 && o.requests == [] && o.completions == []
              && o.events == (if s.scan.requestId != 0 && s.scan.isFullScan then [SyncStopped] else [])
                             + (if action.Disconnect? then [Disconnected] else [Disconnected, Connected])
  {
  }

  lemma RunOne(s: State, action: Action)
    ensures Run(s, [action]) == (Step(s, action).0, Join(NOTHING, Step(s, action).1))
  {
    assert [action][..0] == [];
  }

  lemma {:induction false} RunValid(s: State, actions: seq<Action>)
    requires Valid(s) && forall k :: 0 <= k < |actions| ==> IsAllowed(actions[k])
    ensures Valid(Run(s, actions).0)
  {
    if actions != [] {
      hide Valid, Step;
      RunValid(s, actions[..|actions| - 1]);
      StepKeepsValid(Run(s, actions[..|actions| - 1]).0, actions[|actions| - 1]);
    }
  }

  /** No scan to a depth is asked for. */
  predicate NoRewind(actions: seq<Action>) { forall k :: 0 <= k < |actions| ==> !actions[k].ScanToDepth? }

  /** Over every run without a scan to a depth the synced height is where the last completed scan ended, or where it
      began. */
  lemma {:induction false} SyncedOverRun(s: State, actions: seq<Action>)
    requires Valid(s) && (forall k :: 0 <= k < |actions| ==> IsAllowed(actions[k])) && NoRewind(actions)
    ensures var (s', o) := Run(s, actions);
            if o.completions == [] then s'.syncedHeight == s.syncedHeight
            else s'.syncedHeight + 1 == o.completions[|o.completions| - 1].end
  {
    if actions != [] {
      hide Valid, Step;
      var n := |actions| - 1;
      SyncedOverRun(s, actions[..n]);
      RunValid(s, actions[..n]);
      SyncedExactly(Run(s, actions[..n]).0, actions[n]);
    }
  }

  /** And over every run at all, of what follows the last scan to a depth. */
  lemma SyncedSinceRewind(s: State, before: seq<Action>, depth: nat, after: seq<Action>)
    requires Valid(s) && NoRewind(after)
    requires forall k :: 0 <= k < |before| ==> IsAllowed(before[k])
    requires forall k :: 0 <= k < |after| ==> IsAllowed(after[k])
    ensures var mid := Run(s, before).0;
            var (s', o) := Run(Step(mid, ScanToDepth(depth)).0, after);
            && Valid(mid)
            && if o.completions != [] then s'.syncedHeight + 1 == o.completions[|o.completions| - 1].end
               else if !mid.isConnected then s'.syncedHeight == mid.syncedHeight
               else s'.syncedHeight == Max(mid.initHeight, Min(depth, mid.syncedHeight))
  {
    hide Run;
    RunValid(s, before);
    var mid := Run(s, before).0;
    StepKeepsValid(mid, ScanToDepth(depth));
    SyncedOverRun(Step(mid, ScanToDepth(depth)).0, after);
  }

  // ----- catching up

  /** Answers to a scan, after each of which the wallet shows the addresses it has by then. */
  function Answers(requestId: nat, shown: seq<Addresses>): seq<Action> {
    if shown == [] then [] else Answers(requestId, shown[..|shown| - 1]) + [AnnounceDone(requestId, true, shown[|shown| - 1])]
  }

  /** The scan was completed, or it goes on and knows the addresses shown last. */
  ghost predicate IsUnderWay(s0: State, s: State, shown: seq<Addresses>) {
    && Valid(s) && s.isConnected && s.networkHeight == s0.networkHeight
    && if s.scan == WIPED then s.syncedHeight == s0.scan.endBlock - 1
       else s.scan.requestId == s0.scan.requestId && s.scan.endBlock == s0.scan.endBlock
            && if shown == [] then s == s0 else shown[|shown| - 1].all <= s.scan.knownAddresses
  }

  lemma OneAnswer(s0: State, s: State, shown: seq<Addresses>, a: Addresses)
    requires Valid(s0) && s0.scan.requestId != 0 && IsUnderWay(s0, s, shown)
    ensures IsUnderWay(s0, Step(s, AnnounceDone(s0.scan.requestId, true, a)).0, shown + [a])
    ensures s.scan == WIPED || a.all <= s.scan.knownAddresses ==> Step(s, AnnounceDone(s0.scan.requestId, true, a)).0.scan == WIPED
  {
  }

  lemma {:induction false} AnswersKeepOn(s: State, shown: seq<Addresses>)
    requires Valid(s) && s.scan.requestId != 0 && s.isConnected
    ensures IsUnderWay(s, Run(s, Answers(s.scan.requestId, shown)).0, shown)
  {
    if shown != [] {
      hide Step, IsUnderWay, Valid, Run, Answers;
      var n := |shown| - 1;
      AnswersKeepOn(s, shown[..n]);
      OneAnswer(s, Run(s, Answers(s.scan.requestId, shown[..n])).0, shown[..n], shown[n]);
      assert shown[..n] + [shown[n]] == shown;
      RunAnswers(s, shown);
    } else {
      RunNone(s);
      assert Answers(s.scan.requestId, shown) == [];
    }
  }

  lemma RunNone(s: State)
    ensures Run(s, []).0 == s
  {
  }

  lemma {:induction false} RunConcat(s: State, a: seq<Action>, b: seq<Action>)
    ensures Run(s, a + b).0 == Run(Run(s, a).0, b).0
  {
    hide Step;
    if b == [] {
      assert a + b == a;
    } else {
      RunConcat(s, a, b[..|b| - 1]);
      assert (a + b)[..|a + b| - 1] == a + b[..|b| - 1];
    }
  }

  /** From any connected state without a scan, one scan catches up with the network, however many answers it takes
      until one shows no address that was not there at the answer before. */
  lemma CatchesUp(s: State, a: Addresses, shown: seq<Addresses>)
    requires Valid(s) && s.isConnected && s.scan.requestId == 0 && shown != []
    requires shown[|shown| - 1].all <= if |shown| == 1 then a.all else shown[|shown| - 2].all
    ensures var s' := Run(s, [UpdateTransactions(a)] + Answers(s.lastRequestId + 1, shown)).0;
            s'.syncedHeight == s.networkHeight == s'.networkHeight && s'.isConnected && s'.scan.requestId == 0
  {
    hide Run, IsUnderWay;
    RunOne(s, UpdateTransactions(a));
    StepKeepsValid(s, UpdateTransactions(a));
    var mid := Step(s, UpdateTransactions(a)).0;
    var n := |shown| - 1;
    RunConcat(s, [UpdateTransactions(a)], Answers(s.lastRequestId + 1, shown));
    AnswersKeepOn(mid, shown[..n]);
    var late := Run(mid, Answers(mid.scan.requestId, shown[..n])).0;
    LastAnswer(mid, late, shown, a);
    RunAnswers(mid, shown);
  }

  lemma RunAnswers(s: State, shown: seq<Addresses>)
    requires shown != []
    ensures Run(s, Answers(s.scan.requestId, shown)).0
         == Step(Run(s, Answers(s.scan.requestId, shown[..|shown| - 1])).0,
                 AnnounceDone(s.scan.requestId, true, shown[|shown| - 1])).0
  {
    hide Step;
    var actions := Answers(s.scan.requestId, shown);
    assert actions[..|actions| - 1] == Answers(s.scan.requestId, shown[..|shown| - 1]);
  }

  lemma LastAnswer(s0: State, s: State, shown: seq<Addresses>, a: Addresses)
    requires Valid(s0) && s0.scan.requestId != 0 && shown != [] && IsUnderWay(s0, s, shown[..|shown| - 1])
    requires a.all == s0.scan.knownAddresses
    requires shown[|shown| - 1].all <= if |shown| == 1 then a.all else shown[|shown| - 2].all
    ensures var s' := Step(s, AnnounceDone(s0.scan.requestId, true, shown[|shown| - 1])).0;
            && s'.scan == WIPED && s'.syncedHeight == s0.scan.endBlock - 1 && s'.isConnected
            && s'.networkHeight == s0.networkHeight
  {
    OneAnswer(s0, s, shown[..|shown| - 1], shown[|shown| - 1]);
  }
}
