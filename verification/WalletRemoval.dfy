/** Removing a transaction together with everything that depends on it, bitcoin/BRWallet.c. */
module WalletRemoval {
  import opened Wrappers
  import opened Transactions
  import opened WalletState
  import opened WalletBalance
  import opened BalanceUpdate
  import opened WalletOrder
  import opened WalletLedger

  // ----- what depends on what

  predicate SpendsKnown(allTx: map<Hash, Tx>, x: Hash, y: Hash) {
    x in allTx && y in allTx && DirectlySpends(allTx[x], y)
  }

  /** `x` spends `y` and is not below it in height: the spenders a removal looks for. */
  predicate SpendsUpward(allTx: map<Hash, Tx>, x: Hash, y: Hash) {
    SpendsKnown(allTx, x, y) && allTx[x].blockHeight >= allTx[y].blockHeight
  }

  /** `x` is `h`, or registered and spends, directly or through other registered transactions, `h`. */
  ghost predicate DependsOn(allTx: map<Hash, Tx>, list: seq<Hash>, h: Hash, x: Hash, rank: Hash -> nat)
    requires Ranked(allTx, rank)
    decreases rank(x)
  {
    || x == h
    || (x in list && exists y :: SpendsKnown(allTx, x, y) && DependsOn(allTx, list, h, y, rank))
  }

  /** The same through spenders that a removal finds. */
  ghost predicate Dragged(allTx: map<Hash, Tx>, list: seq<Hash>, h: Hash, x: Hash, rank: Hash -> nat)
    requires Ranked(allTx, rank)
    decreases rank(x)
  {
    || x == h
    || (x in list && exists y :: SpendsUpward(allTx, x, y) && Dragged(allTx, list, h, y, rank))
  }

  ghost function AllDragged(allTx: map<Hash, Tx>, list: seq<Hash>, h: Hash, rank: Hash -> nat): set<Hash>
    requires Ranked(allTx, rank)
  {
    set x | x in list && Dragged(allTx, list, h, x, rank)
  }

  /** The list without the members of `gone`, in order. */
  ghost function Keep(list: seq<Hash>, gone: set<Hash>): (r: seq<Hash>)
    ensures forall x :: x in r <==> x in list && x !in gone
  {
    if list == [] then []
    else Keep(list[..|list| - 1], gone) + (if list[|list| - 1] in gone then [] else [list[|list| - 1]])
  }

  lemma KeepAppend(list: seq<Hash>, x: Hash, gone: set<Hash>)
    ensures Keep(list + [x], gone) == Keep(list, gone) + (if x in gone then [] else [x])
  {
    assert (list + [x])[..|list|] == list;
  }

  lemma {:induction false} KeepTwice(list: seq<Hash>, a: set<Hash>, b: set<Hash>)
    ensures Keep(Keep(list, a), b) == Keep(list, a + b)
  {
    if list != [] {
      var rest, x := list[..|list| - 1], list[|list| - 1];
      KeepTwice(rest, a, b);
      if x !in a {
        assert (Keep(rest, a) + [x])[..|Keep(rest, a)|] == Keep(rest, a);
      } else {
        assert Keep(list, a) == Keep(rest, a);
      }
    }
  }

  lemma {:induction false} KeepSame(list: seq<Hash>, a: set<Hash>, b: set<Hash>)
    requires forall x :: x in list ==> (x in a <==> x in b)
    ensures Keep(list, a) == Keep(list, b)
  {
    if list != [] {
      forall x | x in list[..|list| - 1] ensures x in list {}
      KeepSame(list[..|list| - 1], a, b);
      assert list[|list| - 1] in list;
    }
  }

  lemma {:induction false} KeepAll(list: seq<Hash>, gone: set<Hash>)
    requires forall x :: x in list ==> x !in gone
    ensures Keep(list, gone) == list
  {
    if list != [] {
      hide Keep;
      var rest, x := list[..|list| - 1], list[|list| - 1];
      assert list == rest + [x];
      KeepAll(rest, gone);
      KeepAppend(rest, x, gone);
    }
  }

  lemma {:induction false} KeepOneOut(list: seq<Hash>, pos: nat)
    requires pos < |list| && Distinct(list)
    ensures RemoveAt(list, pos) == Keep(list, {list[pos]})
  {
    hide Keep;
    var n := |list| - 1;
    var rest := list[..n];
    assert list == rest + [list[n]];
    KeepAppend(rest, list[n], {list[pos]});
    if pos == n {
      KeepAll(rest, {list[pos]});
    } else {
      KeepOneOut(rest, pos);
      assert RemoveAt(list, pos) == RemoveAt(rest, pos) + [list[n]];
    }
  }

  lemma {:induction false} KeepShorter(list: seq<Hash>, gone: set<Hash>)
    ensures |Keep(list, gone)| <= |list|
    ensures (exists x :: x in list && x in gone) ==> |Keep(list, gone)| < |list|
  {
    if list != [] {
      KeepShorter(list[..|list| - 1], gone);
    }
  }

  // ----- dependence

  lemma {:induction false} DraggedSmaller(allTx: map<Hash, Tx>, small: seq<Hash>, list: seq<Hash>, h: Hash, x: Hash, rank: Hash -> nat)
    requires Ranked(allTx, rank) && (forall z :: z in small ==> z in list)
    requires Dragged(allTx, small, h, x, rank)
    ensures Dragged(allTx, list, h, x, rank)
    decreases rank(x)
  {
    if x != h {
      var y :| SpendsUpward(allTx, x, y) && Dragged(allTx, small, h, y, rank);
      DraggedSmaller(allTx, small, list, h, y, rank);
    }
  }

  lemma {:induction false} DraggedChain(allTx: map<Hash, Tx>, list: seq<Hash>, h: Hash, y: Hash, x: Hash, rank: Hash -> nat)
    requires Ranked(allTx, rank)
    requires Dragged(allTx, list, h, y, rank) && Dragged(allTx, list, y, x, rank)
    ensures Dragged(allTx, list, h, x, rank)
    decreases rank(x)
  {
    if x != y {
      var z :| SpendsUpward(allTx, x, z) && Dragged(allTx, list, y, z, rank);
      DraggedChain(allTx, list, h, y, z, rank);
    }
  }

  /** `gone` leaves no spender behind that a removal would have found. */
  ghost predicate Closed(allTx: map<Hash, Tx>, list: seq<Hash>, gone: set<Hash>) {
    forall x, y :: x in list && x !in gone && y in gone ==> !SpendsUpward(allTx, x, y)
  }

  /** A closed set that holds `h` holds everything dragged along. */
  lemma {:induction false} ClosedHoldsDragged(allTx: map<Hash, Tx>, list: seq<Hash>, gone: set<Hash>, h: Hash, x: Hash, rank: Hash -> nat)
    requires Ranked(allTx, rank) && Closed(allTx, list, gone) && h in gone
    requires Dragged(allTx, list, h, x, rank)
    ensures x in gone
    decreases rank(x)
  {
    if x != h {
      var y :| SpendsUpward(allTx, x, y) && Dragged(allTx, list, h, y, rank);
      ClosedHoldsDragged(allTx, list, gone, h, y, rank);
    }
  }

  /** Removing `y`, itself dragged by `h`, after the closed set `gone`. */
  lemma RemoveOneMore(allTx: map<Hash, Tx>, list: seq<Hash>, gone: set<Hash>, h: Hash, y: Hash, rank: Hash -> nat)
    requires Ranked(allTx, rank) && Closed(allTx, list, gone)
    requires forall x :: x in gone ==> Dragged(allTx, list, h, x, rank)
    requires Dragged(allTx, list, h, y, rank)
    ensures var more := AllDragged(allTx, Keep(list, gone), y, rank) + {y};
            && Closed(allTx, list, gone + more)
            && (forall x :: x in gone + more ==> Dragged(allTx, list, h, x, rank))
            && Keep(Keep(list, gone), AllDragged(allTx, Keep(list, gone), y, rank)) == Keep(list, gone + more)
  {
    var left := Keep(list, gone);
    var found := AllDragged(allTx, left, y, rank);
    forall x | x in found + {y} ensures Dragged(allTx, list, h, x, rank) {
      DraggedSmaller(allTx, left, list, y, x, rank);
      DraggedChain(allTx, list, h, y, x, rank);
    }
    forall x, z | x in list && x !in gone + (found + {y}) && z in gone + (found + {y}) ensures !SpendsUpward(allTx, x, z) {
      assert x in left;
      assert SpendsUpward(allTx, x, z) && z !in gone ==> Dragged(allTx, left, y, x, rank);
    }
    KeepSame(left, found, found + {y});
    KeepTwice(list, gone, found + {y});
  }

  // ----- removal

  /** The registered transactions that spend `h`, searched from the end down to its height. */
  method FindDependents(w: Wallet, h: Hash, ghost rank: Hash -> nat) returns (hashes: seq<Hash>)
    requires w.Valid() && SortedByHeight(w.allTx, w.transactions) && Ranked(w.allTx, rank) && h in w.allTx
    ensures forall x :: x in hashes <==> x in w.transactions && SpendsUpward(w.allTx, x, h)
  {
    hide SortedByHeight, HeightOf;
    var list := w.transactions;
    hashes := [];
    var i := |list|;
    while i > 0
      invariant 0 <= i <= |list|
      invariant forall x :: x in hashes <==> x in list[i..] && SpendsUpward(w.allTx, x, h)
    {
      var t := w.allTx[list[i - 1]];
      if t.blockHeight < w.allTx[h].blockHeight {
        NoneBelow(w.allTx, list, i, h);
        return;
      }
      assert list[i - 1..] == [list[i - 1]] + list[i..];
      var spends := t.txHash != h && exists j :: 0 <= j < |t.inputs| && t.inputs[j].txHash == h;
      NoSelfSpend(w.allTx, h, rank);
      if spends {
        hashes := hashes + [t.txHash];
      }
      i := i - 1;
    }
  }

  lemma NoSelfSpend(allTx: map<Hash, Tx>, h: Hash, rank: Hash -> nat)
    requires Ranked(allTx, rank)
    ensures !SpendsKnown(allTx, h, h)
  {
  }

  lemma NoneBelow(allTx: map<Hash, Tx>, list: seq<Hash>, i: nat, h: Hash)
    requires Registered(allTx, list) && SortedByHeight(allTx, list) && 0 < i <= |list| && h in allTx
    requires allTx[list[i - 1]].blockHeight < allTx[h].blockHeight
    ensures forall x :: x in list && SpendsUpward(allTx, x, h) ==> x in list[i..]
  {
    forall x | x in list && SpendsUpward(allTx, x, h) ensures x in list[i..] {
      var k :| 0 <= k < |list| && list[k] == x;
      assert k < i ==> HeightOf(allTx, list[k]) <= HeightOf(allTx, list[i - 1]);
      assert list[i..][k - i] == x;
    }
  }

  /** `BRWalletRemoveTransaction`: removes `h` and, recursively, the registered transactions that
      spend it and are not below it, keeps the rest in order, and recomputes the balance.  Nothing
      is removed from `allTx`.  `rank` bounds the recursion: a spender outranks what it spends. */
  method RemoveTransaction(w: Wallet, h: Hash, now: int, ghost rank: Hash -> nat, ghost bound: nat)
    requires Ledger(w) && Ranked(w.allTx, rank)
    requires forall x :: x in w.allTx ==> rank(x) <= bound
    modifies w`transactions, w`balance, w`totalSent, w`totalReceived, w`balanceHist, w`utxos,
             w`invalidTx, w`pendingTx, w`spentOutputs, w`usedPKH
    ensures Ledger(w)
    ensures h in w.allTx ==> w.transactions == Keep(old(w.transactions), AllDragged(w.allTx, old(w.transactions), h, rank))
    ensures h in w.allTx ==> UpToDate(w, now)
    ensures h !in w.allTx ==> unchanged(w)
    decreases |w.transactions|, bound - rank(h)
  {
    hide Concerns, SortedByHeight, AllDragged, Dragged, UpToDate, RemoveAt, Keep, SpendsUpward, Ranked;
    if h !in w.allTx {
      return;
    }
    ghost var list := w.transactions;
    var hashes := FindDependents(w, h, rank);
    if |hashes| > 0 {
      ghost var gone := {};
      NothingGone(w.allTx, list, h, hashes, rank);
      var i := |hashes|;
      while i > 0
        invariant 0 <= i <= |hashes|
        invariant Ledger(w)
        invariant w.transactions == Keep(list, gone) && Closed(w.allTx, list, gone)
        invariant forall x :: x in gone ==> Dragged(w.allTx, list, h, x, rank)
        invariant i == |hashes| ==> w.transactions == list
        invariant i < |hashes| ==> |w.transactions| < |list|
      {
        var y := hashes[i - 1];
        ghost var left := w.transactions;
        RemoveTransaction(w, y, now, rank, bound);
        RemoveOneMore(w.allTx, list, gone, h, y, rank);
        DraggedSelf(w.allTx, left, y, rank);
        KeepShorter(left, AllDragged(w.allTx, left, y, rank));
        gone := gone + (AllDragged(w.allTx, left, y, rank) + {y});
        i := i - 1;
      }
      ghost var left := w.transactions;
      RemoveTransaction(w, h, now, rank, bound);
      RemoveOneMore(w.allTx, list, gone, h, h, rank);
      gone := gone + (AllDragged(w.allTx, left, h, rank) + {h});
      ExactlyDragged(w.allTx, list, gone, h, rank);
    } else {
      var pos := FindFromEnd(w.transactions, h);
      OnlyItself(w.allTx, list, pos, h, rank);
      if pos.Some? {
        RemoveKeepsOrder(w.allTx, list, pos.value);
        w.transactions := RemoveAt(w.transactions, pos.value);
      }
      UpdateBalance(w, now);
    }
  }

  lemma DraggedSelf(allTx: map<Hash, Tx>, list: seq<Hash>, h: Hash, rank: Hash -> nat)
    requires Ranked(allTx, rank)
    ensures h in AllDragged(allTx, list, h, rank) <==> h in list
  {
  }

  lemma NothingGone(allTx: map<Hash, Tx>, list: seq<Hash>, h: Hash, hashes: seq<Hash>, rank: Hash -> nat)
    requires Ranked(allTx, rank)
    requires forall x :: x in hashes <==> x in list && SpendsUpward(allTx, x, h)
    ensures Keep(list, {}) == list && Closed(allTx, list, {}) && Dragged(allTx, list, h, h, rank)
    ensures forall x :: x in hashes ==> x in allTx && rank(h) < rank(x) && Dragged(allTx, list, h, x, rank)
  {
    KeepAll(list, {});
  }

  lemma ExactlyDragged(allTx: map<Hash, Tx>, list: seq<Hash>, gone: set<Hash>, h: Hash, rank: Hash -> nat)
    requires Ranked(allTx, rank) && Closed(allTx, list, gone) && h in gone
    requires forall x :: x in gone ==> Dragged(allTx, list, h, x, rank)
    ensures Keep(list, gone) == Keep(list, AllDragged(allTx, list, h, rank))
  {
    forall x | x in list ensures x in gone <==> x in AllDragged(allTx, list, h, rank) {
      if Dragged(allTx, list, h, x, rank) {
        ClosedHoldsDragged(allTx, list, gone, h, x, rank);
      }
    }
    KeepSame(list, gone, AllDragged(allTx, list, h, rank));
  }

  /** Without spenders, `h` goes alone. */
  lemma OnlyItself(allTx: map<Hash, Tx>, list: seq<Hash>, pos: Option<nat>, h: Hash, rank: Hash -> nat)
    requires Ranked(allTx, rank) && Distinct(list)
    requires forall x :: x in list ==> !SpendsUpward(allTx, x, h)
    requires pos.Some? ==> pos.value < |list| && list[pos.value] == h
    requires pos.None? ==> h !in list
    ensures Keep(list, AllDragged(allTx, list, h, rank)) == if pos.Some? then RemoveAt(list, pos.value) else list
  {
    ExactlyDragged(allTx, list, {h}, h, rank);
    if pos.Some? {
      KeepOneOut(list, pos.value);
    } else {
      KeepAll(list, {h});
    }
  }

  // ----- when exactly the dependents go

  /** No registered transaction sits below a known one that it spends. */
  ghost predicate NoSpenderBelow(allTx: map<Hash, Tx>, list: seq<Hash>) {
    forall x, y :: x in list && SpendsKnown(allTx, x, y) ==> SpendsUpward(allTx, x, y)
  }

  /** Every dependent of `h` spends a dependent that is no higher than itself. */
  ghost predicate DependsUpward(allTx: map<Hash, Tx>, list: seq<Hash>, h: Hash, rank: Hash -> nat)
    requires Ranked(allTx, rank)
  {
    forall x :: x in list && x != h && DependsOn(allTx, list, h, x, rank) ==>
      exists y :: SpendsUpward(allTx, x, y) && DependsOn(allTx, list, h, y, rank)
  }

  ghost function AllDependents(allTx: map<Hash, Tx>, list: seq<Hash>, h: Hash, rank: Hash -> nat): set<Hash>
    requires Ranked(allTx, rank)
  {
    set x | x in list && DependsOn(allTx, list, h, x, rank)
  }

  /** The removal takes exactly `h` and its transitive registered spenders, if and only if each of
      these spends another one, or `h`, at or below its own height. */
  lemma {:induction false} RemovalIsExact(allTx: map<Hash, Tx>, list: seq<Hash>, h: Hash, rank: Hash -> nat)
    requires Ranked(allTx, rank)
    ensures Keep(list, AllDragged(allTx, list, h, rank)) == Keep(list, AllDependents(allTx, list, h, rank))
       <==> DependsUpward(allTx, list, h, rank)
  {
    hide Keep, Ranked, SpendsUpward;
    forall x | Dragged(allTx, list, h, x, rank) ensures DependsOn(allTx, list, h, x, rank) {
      DraggedDepends(allTx, list, h, x, rank);
    }
    var kept := Keep(list, AllDragged(allTx, list, h, rank));
    if DependsUpward(allTx, list, h, rank) {
      forall x | DependsOn(allTx, list, h, x, rank) ensures Dragged(allTx, list, h, x, rank) {
        DependsDragged(allTx, list, h, x, rank);
      }
      KeepSame(list, AllDragged(allTx, list, h, rank), AllDependents(allTx, list, h, rank));
    } else if kept == Keep(list, AllDependents(allTx, list, h, rank)) {
      forall x | x in list && x != h && DependsOn(allTx, list, h, x, rank)
        ensures exists y :: SpendsUpward(allTx, x, y) && DependsOn(allTx, list, h, y, rank)
      {
        assert x !in kept;
        assert Dragged(allTx, list, h, x, rank);
      }
    }
  }

  lemma {:induction false} DraggedDepends(allTx: map<Hash, Tx>, list: seq<Hash>, h: Hash, x: Hash, rank: Hash -> nat)
    requires Ranked(allTx, rank) && Dragged(allTx, list, h, x, rank)
    ensures DependsOn(allTx, list, h, x, rank)
    decreases rank(x)
  {
    if x != h {
      var y :| SpendsUpward(allTx, x, y) && Dragged(allTx, list, h, y, rank);
      DraggedDepends(allTx, list, h, y, rank);
    }
  }

  lemma {:induction false} DependsDragged(allTx: map<Hash, Tx>, list: seq<Hash>, h: Hash, x: Hash, rank: Hash -> nat)
    requires Ranked(allTx, rank) && DependsOn(allTx, list, h, x, rank)
    requires DependsUpward(allTx, list, h, rank)
    ensures Dragged(allTx, list, h, x, rank)
    decreases rank(x)
  {
    if x != h {
      var y :| SpendsUpward(allTx, x, y) && DependsOn(allTx, list, h, y, rank);
      DependsDragged(allTx, list, h, y, rank);
    }
  }

  /** That is so whenever no spender sits below what it spends. */
  lemma NoneLeftBehind(allTx: map<Hash, Tx>, list: seq<Hash>, h: Hash, rank: Hash -> nat)
    requires Ranked(allTx, rank) && NoSpenderBelow(allTx, list)
    ensures DependsUpward(allTx, list, h, rank)
    ensures Keep(list, AllDragged(allTx, list, h, rank)) == Keep(list, AllDependents(allTx, list, h, rank))
  {
    RemovalIsExact(allTx, list, h, rank);
  }

  /** Heights come from the network and need not respect spending: a confirmed spender of an
      unconfirmed transaction survives its removal. */
  lemma ConfirmedSpenderSurvives(parent: Tx, child: Tx, rank: Hash -> nat)
    requires RankedTx(parent, rank) && RankedTx(child, rank)
    requires DirectlySpends(child, parent.txHash)
    requires child.blockHeight < parent.blockHeight == TX_UNCONFIRMED
    ensures var allTx := map[parent.txHash := parent, child.txHash := child];
            var list := [child.txHash, parent.txHash];
            && Ranked(allTx, rank) && Registered(allTx, list) && SortedByHeight(allTx, list)
            && Keep(list, AllDragged(allTx, list, parent.txHash, rank)) == [child.txHash]
            && DependsOn(allTx, list, parent.txHash, child.txHash, rank)
  {
    hide Keep, AllDragged, SortedByHeight;
    var allTx := map[parent.txHash := parent, child.txHash := child];
    var list := [child.txHash, parent.txHash];
    assert rank(parent.txHash) < rank(child.txHash);
    OnlyParentDragged(allTx, list, parent, child, rank);
    KeepSame(list, AllDragged(allTx, list, parent.txHash, rank), {parent.txHash});
    assert list == [child.txHash] + [parent.txHash];
    KeepAppend([child.txHash], parent.txHash, {parent.txHash});
    KeepAll([child.txHash], {parent.txHash});
  }

  lemma OnlyParentDragged(allTx: map<Hash, Tx>, list: seq<Hash>, parent: Tx, child: Tx, rank: Hash -> nat)
    requires allTx == map[parent.txHash := parent, child.txHash := child] && list == [child.txHash, parent.txHash]
    requires Ranked(allTx, rank) && parent.txHash != child.txHash
    requires DirectlySpends(child, parent.txHash) && child.blockHeight < parent.blockHeight
    ensures SortedByHeight(allTx, list)
    ensures forall x :: x in AllDragged(allTx, list, parent.txHash, rank) <==> x == parent.txHash
    ensures DependsOn(allTx, list, parent.txHash, child.txHash, rank)
  {
    hide Keep, DirectlySpends, RankedTx;
    assert SpendsKnown(allTx, child.txHash, parent.txHash);
    assert DependsOn(allTx, list, parent.txHash, parent.txHash, rank);
    NoSelfSpend(allTx, child.txHash, rank);
    assert !Dragged(allTx, list, parent.txHash, child.txHash, rank);
  }
}
