/** The API-mode scan protocol of bitcoin/BRSyncManager.c as a state machine: every section run
    under the manager's lock is one step, and steps of all callers interleave freely. */
module SyncProtocol {
  import opened Wrappers

  const BLOCK_OFFSET: nat := 144  // BWM_BRD_SYNC_START_BLOCK_OFFSET
  const BLOCK_HEIGHT_UNBOUND: nat := 0xffff_ffff_ffff_ffff

  type Address = nat

  /** A scan in progress has a nonzero request id; otherwise all fields are cleared. */
  datatype ScanState = ScanState(requestId: nat, isFullScan: bool, begBlock: nat, endBlock: nat,
                                 lastExternal: Address, lastInternal: Address, knownAddresses: set<Address>)

  const WIPED := ScanState(0, false, 0, 0, 0, 0, {})

  datatype State = State(isConnected: bool, initHeight: nat, syncedHeight: nat, networkHeight: nat,
                         lastRequestId: nat, scan: ScanState)

  /** Event types of the wallet manager, to which sync events are passed on. */
  datatype Event = Created | Connected | Disconnected | SyncStarted | SyncProgress | SyncStopped
                 | SyncRecommended | BlockHeightUpdated

  /** A request to the client for the transactions of `addresses` in blocks `beg` to `end`. */
  datatype Request = Request(requestId: nat, addresses: set<Address>, beg: nat, end: nat)

  /** A scan that ran to its end. */
  datatype Completion = Completion(requestId: nat, addresses: set<Address>, beg: nat, end: nat)

  datatype Output = Output(events: seq<Event>, requests: seq<Request>, completions: seq<Completion>)

  const NOTHING := Output([], [], [])

  /** The wallet as a scan sees it: the first unused address of each chain, and all addresses. */
  datatype Addresses = Addresses(external: Address, internal: Address, all: set<Address>)

  /** What can happen.  `Issue` is any request that only takes an id. */
  datatype Action =
    | Connect
    | Disconnect
    | ScanToDepth(depthHeight: nat)
    | Issue
    | UpdateTransactions(a: Addresses)
    | AnnounceBlockNumber(height: nat)
    | AnnounceDone(requestId: nat, success: bool, a: Addresses)

  function Min(a: nat, b: nat): nat { if a < b then a else b }

  function Max(a: nat, b: nat): nat { if a > b then a else b }

  /** `BRClientSyncManagerNew`. */
  function New(checkpointHeight: nat, blockHeight: nat): State {
    State(false, Min(checkpointHeight, blockHeight), Min(checkpointHeight, blockHeight),
          Max(checkpointHeight, blockHeight), 0, WIPED)
  }

  predicate IsInProgress(scan: ScanState) { scan.requestId != 0 }

  /** `BRClientSyncManagerScanStateInit`. */
  function NewScan(synced: nat, network: nat, requestId: nat, a: Addresses): ScanState {
    var end := Max(synced, network) + 1;
    var beg := Min(synced, if end >= BLOCK_OFFSET then end - BLOCK_OFFSET else 0);
    ScanState(requestId, end - beg > BLOCK_OFFSET, beg, end, a.external, a.internal, a.all)
  }

  /** The end of the range requested: open for incremental scans. */
  function RequestEnd(scan: ScanState): nat {
    if scan.isFullScan then scan.endBlock else BLOCK_HEIGHT_UNBOUND
  }

  function StoppedIf(scan: ScanState): seq<Event> {
    if scan.isFullScan then [SyncStopped] else []
  }

  /** `BRClientSyncManagerScanStateAdvanceAndGetNewAddresses`: the addresses still to be requested. */
  function NewAddresses(scan: ScanState, a: Addresses): set<Address> {
    if a.external != scan.lastExternal || a.internal != scan.lastInternal then a.all - scan.knownAddresses else {}
  }

  function Advanced(scan: ScanState, a: Addresses): ScanState {
    if a.external != scan.lastExternal || a.internal != scan.lastInternal
    then scan.(lastExternal := a.external, lastInternal := a.internal, knownAddresses := scan.knownAddresses + a.all)
    else scan
  }

  /** A completion for the scan in progress. */
  function Done(s: State, success: bool, a: Addresses): (State, Output) {
    var scan := s.scan;
    if !success then
      (s.(isConnected := false, scan := WIPED), Output(StoppedIf(scan) + [Disconnected], [], []))
    else if NewAddresses(scan, a) != {} then
      (s.(scan := Advanced(scan, a)),
       Output([], [Request(scan.requestId, NewAddresses(scan, a), scan.begBlock, RequestEnd(scan))], []))
    else
      (s.(syncedHeight := if scan.endBlock > 0 then scan.endBlock - 1 else 0, scan := WIPED),
       Output(StoppedIf(scan), [], [Completion(scan.requestId, Advanced(scan, a).knownAddresses, scan.begBlock, scan.endBlock)]))
  }

  /** One step. */
  function Step(s: State, action: Action): (State, Output) {
    match action
    case Connect =>
      if s.isConnected then (s, NOTHING) else (s.(isConnected := true), Output([Connected], [], []))
    case Disconnect =>
      if !s.isConnected then (s, NOTHING)
      else (s.(isConnected := false, scan := WIPED), Output(StoppedIf(s.scan) + [Disconnected], [], []))
    case ScanToDepth(depthHeight) =>
      if !s.isConnected then (s, NOTHING)
      else (s.(scan := WIPED, syncedHeight := Max(s.initHeight, Min(depthHeight, s.syncedHeight))),
            Output(StoppedIf(s.scan) + [Disconnected, Connected], [], []))
    case Issue =>
      if s.isConnected then (s.(lastRequestId := s.lastRequestId + 1), NOTHING) else (s, NOTHING)
    case UpdateTransactions(a) =>
      if IsInProgress(s.scan) || !s.isConnected then (s, NOTHING)
      else
        var scan := NewScan(s.syncedHeight, s.networkHeight, s.lastRequestId + 1, a);
        (s.(lastRequestId := s.lastRequestId + 1, scan := scan),
         Output(if scan.isFullScan then [SyncStarted] else [],
                [Request(scan.requestId, scan.knownAddresses, scan.begBlock, RequestEnd(scan))], []))
    case AnnounceBlockNumber(height) =>
      if height > s.networkHeight && s.isConnected then (s.(networkHeight := height), Output([BlockHeightUpdated], [], []))
      else (s, NOTHING)
    case AnnounceDone(requestId, success, a) =>
      if requestId == s.scan.requestId && s.isConnected then Done(s, success, a) else (s, NOTHING)
  }

  /** What the environment is held to: heights below the sentinel, and completions that carry an id
      the manager gave out. */
  predicate IsAllowed(action: Action) {
    match action
    case AnnounceBlockNumber(height) => height < BLOCK_HEIGHT_UNBOUND
    case AnnounceDone(requestId, _, _) => requestId != 0
    case _ => true
  }

  function Join(a: Output, b: Output): Output {
    Output(a.events + b.events, a.requests + b.requests, a.completions + b.completions)
  }

  /** A run: the state reached, and everything put out on the way. */
  function Run(s: State, actions: seq<Action>): (State, Output) {
    if actions == [] then (s, NOTHING)
    else
      var (mid, h) := Run(s, actions[..|actions| - 1]);
      var (last, o) := Step(mid, actions[|actions| - 1]);
      (last, Join(h, o))
  }

  // ----- the state invariant

  ghost predicate Valid(s: State) {
    && s.initHeight <= s.syncedHeight <= s.networkHeight < BLOCK_HEIGHT_UNBOUND
    && (IsInProgress(s.scan) ==>
          && s.isConnected && s.scan.requestId <= s.lastRequestId
          && s.scan.begBlock <= s.syncedHeight < s.scan.endBlock <= s.networkHeight + 1)
    && (!IsInProgress(s.scan) ==> s.scan == WIPED)
  }

  /** Heights stay ordered, the network height never falls, a scan implies a connection and a full
      scan implies a scan. */
  lemma StepKeepsValid(s: State, action: Action)
    requires Valid(s) && IsAllowed(action)
    ensures var s' := Step(s, action).0;
            && Valid(s') && s'.initHeight == s.initHeight
            && s'.networkHeight >= s.networkHeight && s'.lastRequestId >= s.lastRequestId
    ensures s.scan.isFullScan ==> IsInProgress(s.scan)
  {
  }

  // ----- coverage

  /** Every block of `[lo, hi)` lies in the range of a completed scan. */
  ghost predicate Covered(done: seq<Completion>, lo: nat, hi: nat) {
    forall b: nat :: lo <= b < hi ==> InRange(done, b)
  }

  ghost predicate InRange(done: seq<Completion>, b: nat) {
    exists i :: 0 <= i < |done| && done[i].beg <= b < done[i].end
  }

  lemma InRangeGrows(done: seq<Completion>, more: seq<Completion>, b: nat)
    requires InRange(done, b) || InRange(more, b)
    ensures InRange(done + more, b)
  {
    if InRange(done, b) {
      var i :| 0 <= i < |done| && done[i].beg <= b < done[i].end;
      assert (done + more)[i] == done[i];
    } else {
      var i :| 0 <= i < |more| && more[i].beg <= b < more[i].end;
      assert (done + more)[|done| + i] == more[i];
    }
  }

  /** Steps leave no gap behind the synced height. */
  lemma StepCovers(s: State, done: seq<Completion>, action: Action)
    requires Valid(s) && IsAllowed(action) && Covered(done, s.initHeight, s.syncedHeight)
    ensures var (s', o) := Step(s, action); Covered(done + o.completions, s'.initHeight, s'.syncedHeight)
  {
    var (s', o) := Step(s, action);
    forall b: nat | s'.initHeight <= b < s'.syncedHeight ensures InRange(done + o.completions, b) {
      if b >= s.syncedHeight {
        assert o.completions[0].beg <= b < o.completions[0].end;
      }
      InRangeGrows(done, o.completions, b);
    }
  }

  // ----- requests

  /** The addresses requested under an id. */
  function Requested(requests: seq<Request>, requestId: nat): set<Address> {
    if requests == [] then {}
    else Requested(requests[..|requests| - 1], requestId)
         + (if requests[|requests| - 1].requestId == requestId then requests[|requests| - 1].addresses else {})
  }

  /** All requests under an id are for the same blocks. */
  ghost predicate OneRange(requests: seq<Request>, requestId: nat, beg: nat, end: nat) {
    forall i :: 0 <= i < |requests| && requests[i].requestId == requestId ==> requests[i].beg == beg && requests[i].end == end
  }

  /** Ids are given out in order; the scan in progress has requested exactly its known addresses,
      all over its own range. */
  ghost predicate Accounted(s: State, requests: seq<Request>) {
    && (forall i :: 0 <= i < |requests| ==> 0 < requests[i].requestId <= s.lastRequestId)
    && (IsInProgress(s.scan) ==>
          && Requested(requests, s.scan.requestId) == s.scan.knownAddresses
          && OneRange(requests, s.scan.requestId, s.scan.begBlock, RequestEnd(s.scan)))
  }

  /** A completed scan asked for all of its addresses, over a range that includes its own. */
  ghost predicate FullyRequested(requests: seq<Request>, c: Completion) {
    && Requested(requests, c.requestId) == c.addresses
    && exists end :: end >= c.end && OneRange(requests, c.requestId, c.beg, end)
  }

  lemma RequestedAppend(requests: seq<Request>, r: Request, requestId: nat)
    ensures Requested(requests + [r], requestId)
         == Requested(requests, requestId) + (if r.requestId == requestId then r.addresses else {})
  {
    assert (requests + [r])[..|requests|] == requests;
  }

  lemma {:induction false} NothingRequested(requests: seq<Request>, requestId: nat)
    requires forall i :: 0 <= i < |requests| ==> requests[i].requestId != requestId
    ensures Requested(requests, requestId) == {}
  {
    if requests != [] {
      NothingRequested(requests[..|requests| - 1], requestId);
    }
  }

  /** The scan that completes has requested all its addresses. */
  lemma CompletionRequested(s: State, requests: seq<Request>, a: Addresses)
    requires Valid(s) && Accounted(s, requests) && IsInProgress(s.scan) && NewAddresses(s.scan, a) == {}
    ensures FullyRequested(requests, Completion(s.scan.requestId, Advanced(s.scan, a).knownAddresses, s.scan.begBlock, s.scan.endBlock))
  {
    hide Requested, OneRange;
    forall x | x in Advanced(s.scan, a).knownAddresses ensures x in s.scan.knownAddresses {
      assert x !in NewAddresses(s.scan, a);
    }
    assert Advanced(s.scan, a).knownAddresses == s.scan.knownAddresses;
    assert RequestEnd(s.scan) >= s.scan.endBlock;
  }

  /** A first request under a fresh id, or another one for the scan in progress. */
  lemma RequestAccounted(s: State, requests: seq<Request>, r: Request, s': State)
    requires Valid(s) && Accounted(s, requests) && s'.lastRequestId >= s.lastRequestId && IsInProgress(s'.scan)
    requires r.requestId == s'.scan.requestId <= s'.lastRequestId
    requires r.beg == s'.scan.begBlock && r.end == RequestEnd(s'.scan)
    requires if IsInProgress(s.scan)
             then s'.scan.requestId == s.scan.requestId && s'.scan.begBlock == s.scan.begBlock
                  && RequestEnd(s'.scan) == RequestEnd(s.scan)
                  && s'.scan.knownAddresses == s.scan.knownAddresses + r.addresses
             else s'.scan.requestId > s.lastRequestId && s'.scan.knownAddresses == r.addresses
    ensures Accounted(s', requests + [r])
  {
    RequestedAppend(requests, r, r.requestId);
    if !IsInProgress(s.scan) {
      NothingRequested(requests, r.requestId);
    }
  }

  lemma StepAccounts(s: State, requests: seq<Request>, action: Action)
    requires Valid(s) && IsAllowed(action) && Accounted(s, requests)
    ensures var (s', o) := Step(s, action);
            && Accounted(s', requests + o.requests)
            && forall i :: 0 <= i < |o.completions| ==> FullyRequested(requests, o.completions[i])
  {
    hide Requested, OneRange, FullyRequested;
    var (s', o) := Step(s, action);
    if o.requests == [] {
      assert requests + o.requests == requests;
    } else {
      assert o.requests == [o.requests[0]];
      RequestAccounted(s, requests, o.requests[0], s');
    }
    if o.completions != [] {
      CompletionRequested(s, requests, action.a);
    }
  }
}
