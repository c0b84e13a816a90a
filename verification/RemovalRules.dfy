/** What `BRWalletRemoveTransaction` of bitcoin/BRWallet.c removes, said of inputs and heights alone. */
module RemovalRules {
  import opened Wrappers
  import opened Transactions
  import opened WalletState
  import opened WalletOrder
  import opened WalletRemoval

  /** The transaction `x` is known, spends an output of `y`, which is known too, and `y` is not above it. */
  ghost predicate Follows(allTx: map<Hash, Tx>, x: Hash, y: Hash) {
    && x in allTx && y in allTx && allTx[y].blockHeight <= allTx[x].blockHeight
    && exists i | 0 <= i < |allTx[x].inputs| :: allTx[x].inputs[i].txHash == y
  }

  /** A line of transactions from `x` down to `h`, each following the next, all registered but perhaps the last. */
  ghost predicate IsLine(allTx: map<Hash, Tx>, list: seq<Hash>, line: seq<Hash>, x: Hash, h: Hash) {
    && line != [] && line[0] == x && line[|line| - 1] == h
    && forall k :: 0 <= k < |line| - 1 ==> line[k] in list && Follows(allTx, line[k], line[k + 1])
  }

  lemma FollowsUpward(allTx: map<Hash, Tx>, x: Hash, y: Hash)
    ensures Follows(allTx, x, y) <==> SpendsUpward(allTx, x, y)
  {
  }

  lemma {:induction false} DraggedExactly(allTx: map<Hash, Tx>, list: seq<Hash>, h: Hash, x: Hash, rank: Hash -> nat)
    requires Ranked(allTx, rank)
    ensures Dragged(allTx, list, h, x, rank) <==> exists line :: IsLine(allTx, list, line, x, h)
    decreases rank(x)
  {
    if Dragged(allTx, list, h, x, rank) {
      if x == h {
        assert IsLine(allTx, list, [h], x, h);
      } else {
        var y :| SpendsUpward(allTx, x, y) && Dragged(allTx, list, h, y, rank);
        DraggedExactly(allTx, list, h, y, rank);
        FollowsUpward(allTx, x, y);
        var line :| IsLine(allTx, list, line, y, h);
        LongerLine(allTx, list, line, x, y, h);
      }
    }
    forall line | IsLine(allTx, list, line, x, h) ensures Dragged(allTx, list, h, x, rank) {
      LineDrags(allTx, list, line, x, h, rank);
    }
  }

  lemma LongerLine(allTx: map<Hash, Tx>, list: seq<Hash>, line: seq<Hash>, x: Hash, y: Hash, h: Hash)
    requires IsLine(allTx, list, line, y, h) && x in list && Follows(allTx, x, y)
    ensures IsLine(allTx, list, [x] + line, x, h)
  {
    hide Follows;
    var longer := [x] + line;
    assert forall k :: 0 < k < |longer| ==> longer[k] == line[k - 1];
  }

  lemma {:induction false} LineDrags(allTx: map<Hash, Tx>, list: seq<Hash>, line: seq<Hash>, x: Hash, h: Hash, rank: Hash -> nat)
    requires Ranked(allTx, rank) && IsLine(allTx, list, line, x, h)
    ensures Dragged(allTx, list, h, x, rank)
    decreases |line|
  {
    hide Follows, SpendsUpward;
    if |line| > 1 {
      var rest := line[1..];
      assert forall k :: 0 <= k < |rest| ==> rest[k] == line[k + 1];
      assert IsLine(allTx, list, rest, line[1], h);
      LineDrags(allTx, list, rest, line[1], h, rank);
      FollowsUpward(allTx, x, line[1]);
    }
  }

  /** A registered transaction goes if and only if such a line leads from it to the one removed; the others stay,
      once each and in their order. */
  lemma RemovedExactly(allTx: map<Hash, Tx>, list: seq<Hash>, h: Hash, rank: Hash -> nat)
    requires Ranked(allTx, rank) && Distinct(list)
    ensures var kept := Keep(list, AllDragged(allTx, list, h, rank));
            && (forall x :: x in kept <==> x in list && !exists line :: IsLine(allTx, list, line, x, h))
            && Distinct(kept)
            && forall i, j :: 0 <= i < j < |kept| ==> IsBefore(list, kept[i], kept[j])
  {
    forall x ensures Dragged(allTx, list, h, x, rank) <==> exists line :: IsLine(allTx, list, line, x, h) {
      DraggedExactly(allTx, list, h, x, rank);
    }
    KeepsOrder(list, AllDragged(allTx, list, h, rank));
    hide Dragged, IsLine, Keep;
  }

  predicate IsBefore(list: seq<Hash>, x: Hash, y: Hash) {
    exists i, j :: 0 <= i < j < |list| && list[i] == x && list[j] == y
  }

  lemma {:induction false} KeepsOrder(list: seq<Hash>, gone: set<Hash>)
    requires Distinct(list)
    ensures Distinct(Keep(list, gone))
    ensures forall i, j :: 0 <= i < j < |Keep(list, gone)| ==> IsBefore(list, Keep(list, gone)[i], Keep(list, gone)[j])
  {
    if list != [] {
      var n := |list| - 1;
      var rest := list[..n];
      KeepsOrder(rest, gone);
      var kept, all := Keep(rest, gone), Keep(list, gone);
      forall i, j | 0 <= i < j < |all| ensures IsBefore(list, all[i], all[j]) && all[i] != all[j] {
        assert all[i] == kept[i] && kept[i] in rest;
        if j < |kept| {
          assert IsBefore(rest, kept[i], kept[j]);
          var p, q :| 0 <= p < q < n && rest[p] == kept[i] && rest[q] == kept[j];
          assert list[p] == all[i] && list[q] == all[j];
        } else {
          var p :| 0 <= p < n && rest[p] == kept[i];
          assert list[p] == all[i] && list[n] == all[j];
        }
      }
    }
  }

  /** In particular an unconfirmed transaction takes along every unconfirmed one that spends an output of it. */
  lemma UnconfirmedSpendersGo(allTx: map<Hash, Tx>, list: seq<Hash>, h: Hash, x: Hash, i: nat, rank: Hash -> nat)
    requires Ranked(allTx, rank) && Distinct(list) && x in list && x in allTx && h in allTx
    requires allTx[h].blockHeight == 0x7fff_ffff && allTx[x].blockHeight == 0x7fff_ffff
    requires i < |allTx[x].inputs| && allTx[x].inputs[i].txHash == h
    ensures x !in Keep(list, AllDragged(allTx, list, h, rank))
  {
    SpenderGoes(allTx, list, h, x, h, rank);
  }

  /** Where no registered transaction is below one that it spends, nothing stays that spends what went. */
  lemma NothingDangles(allTx: map<Hash, Tx>, list: seq<Hash>, h: Hash, x: Hash, y: Hash, rank: Hash -> nat)
    requires Ranked(allTx, rank) && Distinct(list) && h in allTx && forall z :: z in list ==> z in allTx
    requires forall z, i :: z in list && 0 <= i < |allTx[z].inputs| && allTx[z].inputs[i].txHash in allTx ==>
               allTx[allTx[z].inputs[i].txHash].blockHeight <= allTx[z].blockHeight
    requires x in Keep(list, AllDragged(allTx, list, h, rank))
    requires y == h || (y in list && y !in Keep(list, AllDragged(allTx, list, h, rank)))
    ensures forall i :: 0 <= i < |allTx[x].inputs| ==> allTx[x].inputs[i].txHash != y
  {
    if i :| 0 <= i < |allTx[x].inputs| && allTx[x].inputs[i].txHash == y {
      assert Follows(allTx, x, y);
      SpenderGoes(allTx, list, h, x, y, rank);
    }
  }

  lemma SpenderGoes(allTx: map<Hash, Tx>, list: seq<Hash>, h: Hash, x: Hash, y: Hash, rank: Hash -> nat)
    requires Ranked(allTx, rank) && Distinct(list) && x in list && Follows(allTx, x, y)
    requires y == h || (y in list && y !in Keep(list, AllDragged(allTx, list, h, rank)))
    ensures x !in Keep(list, AllDragged(allTx, list, h, rank))
  {
    RemovedExactly(allTx, list, h, rank);
    if y == h {
      assert IsLine(allTx, list, [x, h], x, h);
    } else {
      var line :| IsLine(allTx, list, line, y, h);
      LongerLine(allTx, list, line, x, y, h);
    }
  }
}
