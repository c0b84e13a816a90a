/** The API-mode sync manager of bitcoin/BRSyncManager.c.  Each method is one section run under the
    manager's lock, or a sequence of such sections. */
module SyncManager {
  import opened Wrappers
  import opened SyncProtocol

  class ClientManager {
    var isConnected: bool
    var initBlockHeight: nat
    var networkBlockHeight: nat
    var syncedBlockHeight: nat
    var requestIdGenerator: nat
    var scanState: ScanState

    function Abs(): State
      reads this
    {
      State(isConnected, initBlockHeight, syncedBlockHeight, networkBlockHeight, requestIdGenerator, scanState)
    }

    /** `BRClientSyncManagerNew`, from the height of the checkpoint before the wallet's first key. */
    constructor (checkpointBlockHeight: nat, blockHeight: nat)
      ensures Abs() == New(checkpointBlockHeight, blockHeight)
    {
      initBlockHeight := if checkpointBlockHeight < blockHeight then checkpointBlockHeight else blockHeight;
      networkBlockHeight := if checkpointBlockHeight > blockHeight then checkpointBlockHeight else blockHeight;
      syncedBlockHeight := initBlockHeight;
      isConnected, requestIdGenerator, scanState := false, 0, WIPED;
    }

    // ----- sections

    /** The locked part of `BRClientSyncManagerConnect`. */
    method SetConnected() returns (o: Output)
      modifies this`isConnected
      ensures (Abs(), o) == Step(old(Abs()), Connect)
    {
      var needEvent := false;
      if !isConnected {
        isConnected := true;
        needEvent := true;
      }
      o := NOTHING;
      if needEvent {
        o := Output([Connected], [], []);
      }
    }

    /** `BRClientSyncManagerDisconnect`. */
    method Disconnect() returns (o: Output)
      modifies this`isConnected, this`scanState
      ensures (Abs(), o) == Step(old(Abs()), Action.Disconnect)
    {
      var needConnectionEvent, needSyncEvent := false, false;
      if isConnected {
        isConnected := false;
        needConnectionEvent := true;
        needSyncEvent := scanState.isFullScan;
        scanState := WIPED;
      }
      o := NOTHING;
      if needSyncEvent {
        o := Output([SyncStopped], [], []);
      }
      if needConnectionEvent {
        o := o.(events := o.events + [Disconnected]);
        assert o.events == StoppedIf(old(scanState)) + [Disconnected];
      }
    }

    /** The locked part of `BRClientSyncManagerScanToDepth`. */
    method Rewind(calcHeight: nat) returns (o: Output)
      modifies this`syncedBlockHeight, this`scanState
      ensures (Abs(), o) == Step(old(Abs()), ScanToDepth(calcHeight))
    {
      var needConnectionEvent, needSyncEvent := false, false;
      if isConnected {
        needConnectionEvent := true;
        needSyncEvent := scanState.isFullScan;
        scanState := WIPED;
        var height := if calcHeight < syncedBlockHeight then calcHeight else syncedBlockHeight;
        syncedBlockHeight := if initBlockHeight > height then initBlockHeight else height;
      }
      o := NOTHING;
      if needSyncEvent {
        o := Output([SyncStopped], [], []);
      }
      if needConnectionEvent {
        o := o.(events := o.events + [Disconnected]);
        o := o.(events := o.events + [Connected]);
        assert o.events == StoppedIf(old(scanState)) + [Disconnected, Connected];
      }
    }

    /** `BRClientSyncManagerUpdateBlockNumber`, and what `BRClientSyncManagerSubmit` does to the
        state: a request id is taken if connected. */
    method TakeRequestId() returns (rid: Option<nat>)
      modifies this`requestIdGenerator
      ensures (Abs(), NOTHING) == Step(old(Abs()), Issue)
      ensures rid == if isConnected then Some(requestIdGenerator) else None
    {
      rid := None;
      if isConnected {
        requestIdGenerator := requestIdGenerator + 1;
        rid := Some(requestIdGenerator);
      }
    }

    /** `BRClientSyncManagerUpdateTransactions`: starts a scan if none is in progress. */
    method UpdateTransactions(a: Addresses) returns (o: Output)
      requires Valid(Abs())
      modifies this`requestIdGenerator, this`scanState
      ensures (Abs(), o) == Step(old(Abs()), Action.UpdateTransactions(a))
    {
      var needSyncEvent := false;
      o := NOTHING;
      if scanState.requestId == 0 && isConnected {
        requestIdGenerator := requestIdGenerator + 1;
        InitScan(a, requestIdGenerator);
        needSyncEvent := scanState.isFullScan;
        o := o.(requests := [Request(scanState.requestId, scanState.knownAddresses, scanState.begBlock, RequestEnd(scanState))]);
      }
      if needSyncEvent {
        o := o.(events := [SyncStarted]);
      }
    }

    /** `BRClientSyncManagerScanStateInit`.  The range never overflows and is never empty. */
    method InitScan(a: Addresses, rid: nat)
      requires syncedBlockHeight <= networkBlockHeight < BLOCK_HEIGHT_UNBOUND
      modifies this`scanState
      ensures scanState == NewScan(syncedBlockHeight, networkBlockHeight, rid, a)
      ensures scanState.begBlock <= syncedBlockHeight && scanState.begBlock < scanState.endBlock <= BLOCK_HEIGHT_UNBOUND
    {
      var highest := if syncedBlockHeight > networkBlockHeight then syncedBlockHeight else networkBlockHeight;
      var endBlock := highest + 1;
      var lowest := if endBlock >= BLOCK_OFFSET then endBlock - BLOCK_OFFSET else 0;
      var begBlock := if syncedBlockHeight < lowest then syncedBlockHeight else lowest;
      scanState := ScanState(rid, endBlock - begBlock > BLOCK_OFFSET, begBlock, endBlock, a.external, a.internal, a.all);
    }

    /** `BRClientSyncManagerAnnounceGetBlockNumber`. */
    method AnnounceGetBlockNumber(blockHeight: nat) returns (o: Output)
      modifies this`networkBlockHeight
      ensures (Abs(), o) == Step(old(Abs()), AnnounceBlockNumber(blockHeight))
    {
      var needEvent := false;
      if blockHeight > networkBlockHeight && isConnected {
        networkBlockHeight := blockHeight;
        needEvent := true;
      }
      o := NOTHING;
      if needEvent {
        o := Output([BlockHeightUpdated], [], []);
      }
    }

    /** `BRClientSyncManagerScanStateAdvanceAndGetNewAddresses`. */
    method AdvanceAndGetNewAddresses(a: Addresses) returns (newAddresses: set<Address>)
      modifies this`scanState
      ensures newAddresses == NewAddresses(old(scanState), a) && scanState == Advanced(old(scanState), a)
    {
      newAddresses := {};
      if a.external != scanState.lastExternal || a.internal != scanState.lastInternal {
        newAddresses := a.all - scanState.knownAddresses;
        scanState := scanState.(lastExternal := a.external, lastInternal := a.internal,
                                knownAddresses := scanState.knownAddresses + newAddresses);
        assert scanState.knownAddresses == old(scanState).knownAddresses + a.all;
      }
    }

    /** `BRClientSyncManagerAnnounceGetTransactionsDone`. */
    method AnnounceGetTransactionsDone(rid: nat, success: bool, a: Addresses) returns (o: Output)
      requires Valid(Abs()) && rid != 0
      modifies this`isConnected, this`syncedBlockHeight, this`scanState
      ensures (Abs(), o) == Step(old(Abs()), AnnounceDone(rid, success, a))
    {
      var needSyncEvent, needDiscEvent := false, false;
      o := NOTHING;
      if rid == scanState.requestId && isConnected {
        if success {
          var addresses := AdvanceAndGetNewAddresses(a);
          if addresses != {} {
            o := o.(requests := [Request(rid, addresses, scanState.begBlock, RequestEnd(scanState))]);
          } else {
            syncedBlockHeight := scanState.endBlock - 1;
            needSyncEvent := scanState.isFullScan;
            o := o.(completions := [Completion(rid, scanState.knownAddresses, scanState.begBlock, scanState.endBlock)]);
            scanState := WIPED;
          }
        } else {
          isConnected := false;
          needSyncEvent := scanState.isFullScan;
          needDiscEvent := true;
          scanState := WIPED;
        }
      }
      if needSyncEvent {
        o := o.(events := [SyncStopped]);
      }
      if needDiscEvent {
        o := o.(events := o.events + [Disconnected]);
        assert o.events == StoppedIf(old(scanState)) + [Disconnected];
      }
    }

    // ----- entry points made of several sections

    /** `BRClientSyncManagerConnect`, when nothing comes in between its sections. */
    method ConnectAndScan(a: Addresses) returns (o: Output)
      requires Valid(Abs())
      modifies this`isConnected, this`requestIdGenerator, this`scanState
      ensures (Abs(), o) == Run(old(Abs()), [Connect, Issue, Action.UpdateTransactions(a)])
      ensures isConnected && IsInProgress(scanState)
    {
      ghost var s0 := Abs();
      var o1 := SetConnected();
      ghost var s1 := Abs();
      StepKeepsValid(s0, Connect);
      var rid := TakeRequestId();
      StepKeepsValid(s1, Issue);
      ghost var s2 := Abs();
      var o3 := UpdateTransactions(a);
      o := Join(o1, o3);
      ThreeSteps(s0, Connect, Issue, Action.UpdateTransactions(a));
      JoinThree(o1, o3);
    }

    /** `BRClientSyncManagerScanToDepth` likewise. */
    method ScanToDepthAndScan(calcHeight: nat, a: Addresses) returns (o: Output)
      requires Valid(Abs())
      modifies this`syncedBlockHeight, this`requestIdGenerator, this`scanState
      ensures (Abs(), o) == Run(old(Abs()), [ScanToDepth(calcHeight), Issue, Action.UpdateTransactions(a)])
      ensures old(isConnected) ==> IsInProgress(scanState) && scanState.begBlock <= Max(initBlockHeight, calcHeight)
    {
      ghost var s0 := Abs();
      var o1 := Rewind(calcHeight);
      ghost var s1 := Abs();
      StepKeepsValid(s0, ScanToDepth(calcHeight));
      var rid := TakeRequestId();
      StepKeepsValid(s1, Issue);
      var o3 := UpdateTransactions(a);
      o := Join(o1, o3);
      ThreeSteps(s0, ScanToDepth(calcHeight), Issue, Action.UpdateTransactions(a));
      JoinThree(o1, o3);
    }
  }

  lemma ThreeSteps(s: State, a: Action, b: Action, c: Action)
    ensures var (s1, o1) := Step(s, a);
            var (s2, o2) := Step(s1, b);
            var (s3, o3) := Step(s2, c);
            Run(s, [a, b, c]) == (s3, Join(Join(Join(NOTHING, o1), o2), o3))
  {
    hide Step;
    assert [a, b, c][..2] == [a, b] && [a, b][..1] == [a] && [a][..0] == [];
    assert Run(s, []) == (s, NOTHING);
    assert Run(s, [a]) == (Step(s, a).0, Join(NOTHING, Step(s, a).1));
    assert Run(s, [a, b]) == (Step(Step(s, a).0, b).0, Join(Join(NOTHING, Step(s, a).1), Step(Step(s, a).0, b).1));
  }

  lemma JoinThree(a: Output, c: Output)
    ensures Join(Join(Join(NOTHING, a), NOTHING), c) == Join(a, c)
  {
    assert ([] + a.events) + [] == a.events && ([] + a.requests) + [] == a.requests;
    assert ([] + a.completions) + [] == a.completions;
  }
}
