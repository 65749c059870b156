// The small world's runs in which the conditional results fail as they say: two indexers on one chain
// with different tables, for the follow heights and for the stored indexes; a rollback that is refused;
// a status gone stale; a balance answered 0 for a wallet taken out.
module Example {
  import opened Base
  import opened Tables
  import opened Oracle
  import opened Passes
  import opened Derivation
  import opened Scan
  import opened Chain
  import opened Headers
  import opened System
  import opened Invariant
  import opened Runs
  import opened Theorems
  import opened RescanProof
  import opened StoredIndexes
  import opened SmallWorld
  import opened Queries
  import RollbackProof
  import opened Codec

  // ---- Two histories ----

  // The first wallet is born at height 2. The indexer that saw block 2 and then the reorg records what
  // block 12 pays; the one that goes to block 13 directly does not.
  lemma TablesDiffer() returns (e1: Sys, e2: Sys)
    ensures var w := TheWorld();
            && 1 <= |[2]| <= |w.ids| && |Fresh(w, [2]).chain| >= 1 && LabelsInRange(Fresh(w, [2]).scan.keys)
            && Rounds(w.env, [A(), B(), B()], Fresh(w, [2])) == Some(e1) && Rounds(w.env, [B()], Fresh(w, [2])) == Some(e2)
            && e1.chain == e2.chain && CaughtUp(e1) && CaughtUp(e2) && e1.scan.ledger != e2.scan.ledger
  {
    hide GoodAction, RespectsGap, CaughtUp, Rounds, LabelsInRange, Fresh, All, Owner, DistinctScripts, ForkHeight;
    var w := TheWorld();
    ScriptsDiffer();
    OursIsGood(A());
    OursIsGood(B());
    PartAtOne(A(), B());
    assert MinHeight(NewWallets(w.ids, [2], 0)) == 2;
    var start := NewWallets(w.ids, [2], 0);
    GapRespected(B(), start, Flat(1, 1));
    GapRespected(B(), start, FreshScope(w, [2]).low);
    e1, e2 := TwoHistories(w, [2], A(), B(), 1);
    AllOfB();
    Owners();
    assert PaidBetween(w, B().chain, Flat(1, 1), FreshScope(w, [2]).low, 1);
  }

  // ---- The refused rollback ----

  // The first wallet, born at height 0, has caught up with chain A and knows the output of block 1.
  lemma CaughtUpWithA() returns (n: nat, x: Sys, marks: set<Mark>)
    ensures var w := TheWorld();
            && 1 <= |[0]| <= |w.ids| && |Fresh(w, [0]).chain| >= 1 && LabelsInRange(Fresh(w, [0]).scan.keys)
            && (forall a :: a in Round(A(), n) ==> GoodAction(w, a))
            && RunAll(w, Fresh(w, [0]), FreshScope(w, [0]), Round(A(), n)) == Some((x, FreshScope(w, [0])))
            && Inv(w, FreshScope(w, [0]), x, marks) && CaughtUp(x) && x.chain == A().chain && COIN in Known(marks)
            && |x.scan.keys.wallets| == 1 && LabelsInRange(x.scan.keys)
  {
    hide GoodAction, RespectsGap, LabelsInRange, Fresh, All, Owner, DistinctScripts, Inv, OnePass, RunAll, Tick, TickHeaders, ScopeAfter, CaughtUp, Known, Pos, BlockAt, Row;
    var w, sc := TheWorld(), FreshScope(TheWorld(), [0]);
    ScriptsDiffer();
    OursIsGood(A());
    FreshIsGood(w, [0]);
    var s := Fresh(w, [0]);
    PeerHasGenesis(w, s, A());
    FollowedRound(w, sc, s, {}, A());
    x := Tick(w.env, A(), s).value;
    var sc1;
    n, sc1, marks := TickIsARun(w, sc, s, {}, A(), x);
    InvBasics(w, sc, x, marks);
    CoinIsKnown(x, marks);
  }

  lemma CoinIsKnown(x: Sys, marks: set<Mark>)
    requires 1 <= |[0]| <= |TheWorld().ids|
    requires Inv(TheWorld(), FreshScope(TheWorld(), [0]), x, marks) && CaughtUp(x) && x.chain == A().chain
    ensures COIN in Known(marks)
  {
    hide RespectsGap, All, Owner, Inv, CaughtUp, Known, Pos, BlockAt, Row;
    var w, sc := TheWorld(), FreshScope(TheWorld(), [0]);
    GapRespected(A(), sc.start, sc.low);
    CaughtUpIsOracle(w, sc, x, marks);
    AllOfA();
    Owners();
    assert MinHeight(NewWallets(w.ids, [0], 0)) == 0;
    assert Pays(w.env, w.ids, Lows(w.env, A().chain, sc.low), EventsOfA(), 0);
  }

  lemma RunThree(w: World, s: Sys, sc: Scope, a: Action, b: Action, c: Action, s1: Sys, s2: Sys, s3: Sys)
    requires |s.chain| >= 1 && LabelsInRange(s.scan.keys) && GoodAction(w, a) && GoodAction(w, b) && GoodAction(w, c)
    requires (a.HeaderTick? ==> |a.peer.chain| >= 1) && (b.HeaderTick? ==> |b.peer.chain| >= 1) && (c.HeaderTick? ==> |c.peer.chain| >= 1)
    requires Act(w.env, w.ids, s, a) == Some(s1) && |s1.chain| >= 1 && LabelsInRange(s1.scan.keys)
    requires Act(w.env, w.ids, s1, b) == Some(s2) && |s2.chain| >= 1 && LabelsInRange(s2.scan.keys)
    requires Act(w.env, w.ids, s2, c) == Some(s3)
    ensures forall x :: x in [a, b, c] ==> GoodAction(w, x)
    ensures RunAll(w, s, sc, [a, b, c]).Some? && RunAll(w, s, sc, [a, b, c]).value.0 == s3
  {
    hide Act, ScopeAfter, LabelsInRange, GoodAction, RunAll;
    RunOne(w, s, sc, a);
    var c1 := RunAll(w, s, sc, [a]).value.1;
    RunOneMore(w, s, sc, [a], b, s1, c1);
    assert [a] + [b] == [a, b];
    RunOneMore(w, s, sc, [a, b], c, s2, RunAll(w, s, sc, [a, b]).value.1);
    assert [a, b] + [c] == [a, b, c];
  }

  // The second wallet is added, also born at height 0, and block 1 is scanned again.
  lemma SecondWalletAdded(x: Sys, marks: set<Mark>) returns (stuck: Sys)
    requires var w := TheWorld();
             1 <= |[0]| <= |w.ids| && Inv(w, FreshScope(w, [0]), x, marks) && CaughtUp(x) && x.chain == A().chain && COIN in Known(marks)
             && |x.scan.keys.wallets| == 1 && LabelsInRange(x.scan.keys)
    ensures var w := TheWorld();
            && (forall a :: a in [Reboot([0, 0]), HeaderTick(A()), ScanBlock] ==> GoodAction(w, a))
            && RunAll(w, x, FreshScope(w, [0]), [Reboot([0, 0]), HeaderTick(A()), ScanBlock]).Some?
            && RunAll(w, x, FreshScope(w, [0]), [Reboot([0, 0]), HeaderTick(A()), ScanBlock]).value.0 == stuck
            && stuck.chain == A().chain && LabelsInRange(stuck.scan.keys) && !RollbackAllowed(stuck.scan.ledger, 1)
  {
    hide GoodChain, LabelsInRange, Fresh, All, Owner, DistinctScripts, Inv, OnePass, RunAll, TickHeaders, CaughtUp, Known, Restart, MinHeight, ScopeAfter, ProcessBlock,
         RollbackAllowed, MetAgain, Pos, BlockAt, KeysGood, FreshScope, Row;
    var w, sc := TheWorld(), FreshScope(TheWorld(), [0]);
    OursIsGood(A());
    InvBasics(w, sc, x, marks);
    var again := Restart(w.env, w.ids[..|[0, 0]|], [0, 0], x);
    RestartAdds(w, sc, x, [0, 0]);
    RestartChain(w.env, w.ids[..|[0, 0]|], [0, 0], x);
    RestartKeepsInv(w, sc, x, marks, [0, 0]);
    var sc2 := ScopeAfter(w.env, w.ids, x, sc, Reboot([0, 0]));
    InvBasics(w, sc2, again, marks);
    var ws := again.scan.keys.wallets;
    assert ws == x.scan.keys.wallets + NewWallets(w.ids, [0, 0], 1);
    assert MinHeight(ws) <= ws[1].height == 0;
    assert again.chain[|again.chain| - 1] in A().chain by { assert A().chain[2] == 2; }
    FollowedRound(w, sc2, again, marks, A());
    assert Quiet(again) == again;
    stuck := again.(scan := ScanBlocks(w.env, again.scan, x.chain, 0, 1));
    assert ScanBlocks(w.env, again.scan, x.chain, 0, 0) == again.scan;
    assert CanScan(again) && stuck == ScanOne(w.env, again);
    RunThree(w, x, sc, Reboot([0, 0]), HeaderTick(A()), ScanBlock, again, again, stuck);
    RefusedWhileRescanning(w, sc, x, marks, [0, 0], A().chain, 1, 1);
    CoinIsMetAgain(Known(marks));
  }

  lemma CoinIsMetAgain(r: set<OutPoint>)
    requires COIN in r
    ensures MetAgain(TheWorld(), A().chain, 2, r, 0, 1, 1, COIN)
  {
    hide All, Pos, Row, BlockAt;
    AllOfA();
    PosOrder(TheWorld().env, A().chain, 2, 2);
    var es := EventsOfA();
    assert es[0].op == COIN && es[1].op == COIN;
    assert COIN in Funded(es, 1) && COIN in SpentOps(es, 2);
    assert SpendHeight(es, COIN) == 2;
  }

  lemma ForkAtOne()
    ensures SyncSpec(TheWorld().env, B(), A().chain) == (A().chain, Reorg(1))
  {
    hide IsChain, CheckReorgSpec, BlockAt;
    Linked(A());
    Linked(B());
    PartAtOne(A(), B());
    ForkFindingExact(TheWorld().env, 0, B(), A().chain, 1);
  }

  // Then the process starts once more and the peer has gone over to chain B: the rollback to block 1 is
  // refused, at this start and, since nothing has changed, at every later one.
  lemma RollbackRefused() returns (acts: seq<Action>, stuck: Sys)
    ensures var w := TheWorld();
            && (forall a :: a in acts ==> GoodAction(w, a)) && 1 <= |[0]| <= |w.ids|
            && |Fresh(w, [0]).chain| >= 1 && LabelsInRange(Fresh(w, [0]).scan.keys)
            && RunAll(w, Fresh(w, [0]), FreshScope(w, [0]), acts).Some? && RunAll(w, Fresh(w, [0]), FreshScope(w, [0]), acts).value.0 == stuck
            && SyncSpec(w.env, B(), stuck.chain) == (stuck.chain, Reorg(1)) && TickHeaders(w.env, B(), stuck).None?
  {
    hide GoodAction, LabelsInRange, Fresh, Inv, RunAll, CaughtUp, Known, FreshScope, SyncSpec, RollbackAllowed;
    var w := TheWorld();
    var n, x, marks := CaughtUpWithA();
    stuck := SecondWalletAdded(x, marks);
    var tail := [Reboot([0, 0]), HeaderTick(A()), ScanBlock];
    RunAllThen(w, Fresh(w, [0]), FreshScope(w, [0]), Round(A(), n), tail);
    acts := Round(A(), n) + tail;
    ForkAtOne();
  }

  // ---- A gap miss, and indexes that show ----

  // The first wallet is born at height 0. Block 22 pays its index 1999, so its next index is 2000 when
  // the reorg to chain D comes, and index 2500, paid by block 32, is watched. The indexer that goes to
  // chain D directly has next index 1 there and misses it. Both follow the wallet from height 0.
  lemma GapMissed() returns (e1: Sys, e2: Sys)
    ensures var w := TheWorld();
            && Arrives(w, [0], [C(), D(), D()], e1) && Arrives(w, [0], [D()], e2) && e1.chain == e2.chain == D().chain
            && 1 <= |[0]| <= |w.ids| && e1.scan.ledger == OracleLedger(w, FreshScope(w, [0]).low, D().chain) && e1.scan.ledger != e2.scan.ledger
  {
    hide GoodAction, RespectsGap, CaughtUp, Rounds, LabelsInRange, Fresh, All, Owner, DistinctScripts, ForkHeight, OracleLedger, WithinReach;
    var w := TheWorld();
    ScriptsDiffer();
    OursIsGood(C());
    OursIsGood(D());
    PartAtOne(C(), D());
    assert MinHeight(NewWallets(w.ids, [0], 0)) == 0;
    GapRespected(C(), FreshScope(w, [0]).start, FreshScope(w, [0]).low);
    var x, mx;
    x, mx, e1, e2 := IndexesShow(w, [0], C(), D(), 1);
    NextIsBeyond(x, mx);
    WithinTwo(x.scan.keys.wallets);
    BeyondOne();
  }

  lemma NextIsBeyond(x: Sys, marks: set<Mark>)
    requires 1 <= |[0]| <= |TheWorld().ids|
    requires Inv(TheWorld(), FreshScope(TheWorld(), [0]), x, marks) && CaughtUp(x) && x.chain == C().chain
    ensures |x.scan.keys.wallets| == 1 && x.scan.keys.wallets[0].nextReceive >= 2000
  {
    hide GoodChain, KeysGood, CompleteUpTo, Described, Overlay, CaughtUp, RespectsGap, All, Pos, Owner, Row, BlockAt, Known;
    var w, sc := TheWorld(), FreshScope(TheWorld(), [0]);
    InvBasics(w, sc, x, marks);
    GapRespected(C(), sc.start, sc.low);
    CaughtUpIsOracle(w, sc, x, marks);
    AllOfC();
    Owners();
    assert MinHeight(NewWallets(w.ids, [0], 0)) == 0;
    assert Pays(w.env, w.ids, Lows(w.env, C().chain, sc.low), EventsOfC(), 1);
    assert EventsOfC()[1].op in Known(marks);
    assert Counted(w.env, w.ids, w.coin, x.scan.keys, EventsOfC()[1].op);
  }

  lemma WithinTwo(wallets: seq<Wallet>)
    requires |wallets| == 1 && wallets[0].nextReceive >= 2000
    ensures WithinReach(TheWorld(), wallets, D().chain, 1)
  {
    hide All, Pos, Owner, Row, BlockAt;
    AllOfD();
    Owners();
  }

  lemma BeyondOne()
    requires 1 <= |[0]| <= |TheWorld().ids|
    ensures !RespectsGap(TheWorld(), FreshScope(TheWorld(), [0]), D().chain)
  {
    hide All, Pos, Owner, Row, BlockAt;
    var w, sc := TheWorld(), FreshScope(TheWorld(), [0]);
    AllOfD();
    Owners();
    assert MinHeight(NewWallets(w.ids, [0], 0)) == 0;
    var lows := Lows(w.env, D().chain, sc.low);
    assert Used(w.env, w.ids, sc.start, lows, EventsOfD(), 0, 0, Receive) == 0;
    assert Used(w.env, w.ids, sc.start, lows, EventsOfD(), 1, 0, Receive) == 1;
    assert !WithinGap(w.env, w.ids, sc.start, lows, EventsOfD(), 1);
  }

  // ---- A stale status ----

  // Event k concerns script hash sh.
  ghost predicate Concerns(w: World, low: seq<nat>, chain: seq<Hash>, sh: Hash, k: nat)
    requires |chain| >= 1
  {
    k < |All(w.env, chain)| && All(w.env, chain)[k].op in Owned(w, low, chain) && w.coin(All(w.env, chain)[k].op).sh == sh
  }

  ghost predicate IsEntry(l: Ledger, header: map<Hash, nat>, sh: Hash, entry: TxData) {
    entry.txid in HistoryTxs(l, header, sh) && header[l.tx[entry.txid].blockHash] == entry.height
  }

  lemma ConcernedJoins(w: World, sc: Scope, sys: Sys, marks: set<Mark>, sh: Hash, k: nat)
    requires Inv(w, sc, sys, marks) && CaughtUp(sys) && RespectsGap(w, sc, sys.chain)
    requires |sys.chain| >= 1 && Concerns(w, sc.low, sys.chain, sh, k)
    ensures var e := All(w.env, sys.chain)[k];
            IsEntry(sys.scan.ledger, HeaderTable(sys.chain), sh, TxData(e.height, e.txid))
  {
    hide Inv, CaughtUp, RespectsGap, Wf, All, Owned, HeaderTable, RollbackProof.HeadersCover, Balance, Received, Paid;
    var es, header := All(w.env, sys.chain), HeaderTable(sys.chain);
    InvFits(w, sc, sys, marks);
    TipOfInv(w, sc, sys, marks, sh);
    RowOfAt(w.coin, es, k);
    CoversAt(es, header, k);
  }

  // At the tip, the transactions of the events that concern a script hash, block by block, are its
  // history, and there is no other.
  lemma HistoryAtTip(w: World, sc: Scope, sys: Sys, marks: set<Mark>, sh: Hash, ks: seq<nat>, hist: seq<TxData>)
    requires Inv(w, sc, sys, marks) && CaughtUp(sys) && RespectsGap(w, sc, sys.chain)
    requires |sys.chain| >= 1 && |ks| == |hist| && forall k :: Concerns(w, sc.low, sys.chain, sh, k) <==> k in ks
    requires forall i :: 0 <= i < |ks| ==>
               ks[i] < |All(w.env, sys.chain)| && hist[i] == TxData(All(w.env, sys.chain)[ks[i]].height, All(w.env, sys.chain)[ks[i]].txid)
    requires forall i, j :: 0 <= i < j < |hist| ==> hist[i].height < hist[j].height
    ensures forall other :: IsHistory(sys.scan.ledger, HeaderTable(sys.chain), sh, other) <==> other == hist
  {
    hide Inv, CaughtUp, RespectsGap, All, Owned, HeaderTable, Truthful, Balance, Received, Paid, HistoryTxs, IsEntry;
    var es, l, header := All(w.env, sys.chain), sys.scan.ledger, HeaderTable(sys.chain);
    forall i | 0 <= i < |hist| ensures IsEntry(l, header, sh, hist[i]) {
      assert ks[i] in ks;
      ConcernedJoins(w, sc, sys, marks, sh, ks[i]);
    }
    TipOfInv(w, sc, sys, marks, sh);
    forall t | t in HistoryTxs(l, header, sh) ensures t in TxidsOf(hist) {
      var k :| 0 <= k < |es| && es[k].txid == t && es[k].op in Owned(w, sc.low, sys.chain) && w.coin(es[k].op).sh == sh;
      assert Concerns(w, sc.low, sys.chain, sh, k);
      var i :| 0 <= i < |ks| && ks[i] == k;
      assert TxidsOf(hist)[i] == t;
    }
    IsInOrder(l, header, sh, hist);
    InvIsTruthful(w, sc, sys, marks, sh);
    OnlyOne(w.env, sys.chain, sys.scan, header, sh, hist);
  }

  lemma IsInOrder(l: Ledger, header: map<Hash, nat>, sh: Hash, hist: seq<TxData>)
    requires forall i :: 0 <= i < |hist| ==> IsEntry(l, header, sh, hist[i])
    requires forall t :: t in HistoryTxs(l, header, sh) ==> t in TxidsOf(hist)
    requires forall i, j :: 0 <= i < j < |hist| ==> hist[i].height < hist[j].height
    ensures IsHistory(l, header, sh, hist)
  {
  }

  lemma CoversAt(es: seq<Event>, header: map<Hash, nat>, k: nat)
    requires RollbackProof.HeadersCover(es, header) && k < |es|
    ensures es[k].row.blockHash in header && header[es[k].row.blockHash] == es[k].height
  {
  }

  lemma OnlyOne(env: Env, chain: seq<Hash>, s: Scan, header: map<Hash, nat>, sh: Hash, hist: seq<TxData>)
    requires Truthful(env, chain, s, header, sh) && IsHistory(s.ledger, header, sh, hist)
    ensures forall other :: IsHistory(s.ledger, header, sh, other) <==> other == hist
  {
    hide IsHistory, IsListing;
  }

  // Both events of chain A concern the script of the first wallet.
  lemma HistoryAtA(x: Sys, marks: set<Mark>)
    requires 1 <= |[0]| <= |TheWorld().ids|
    requires Inv(TheWorld(), FreshScope(TheWorld(), [0]), x, marks) && CaughtUp(x) && x.chain == A().chain
    ensures forall hist :: IsHistory(x.scan.ledger, HeaderTable(x.chain), 0, hist) <==> hist == [TxData(1, 101), TxData(2, 102)]
  {
    hide Inv, CaughtUp, RespectsGap, All, Pos, Owner, Row, BlockAt, HeaderTable, IsHistory;
    var w, sc := TheWorld(), FreshScope(TheWorld(), [0]);
    AllOfA();
    Owners();
    assert MinHeight(NewWallets(w.ids, [0], 0)) == 0;
    var lows := Lows(w.env, A().chain, sc.low);
    assert Pays(w.env, w.ids, lows, EventsOfA(), 0) && EventsOfA()[0].op == COIN && EventsOfA()[1].op == COIN;
    assert COIN in AllOwned(w.env, w.ids, lows, EventsOfA(), 0, 2);
    GapRespected(A(), sc.start, sc.low);
    HistoryAtTip(w, sc, x, marks, 0, [0, 1], [TxData(1, 101), TxData(2, 102)]);
  }

  lemma AllOfOne()
    ensures All(TheWorld().env, [0, 1]) == EventsOfA()[..1] && Pos(TheWorld().env, [0, 1], 0) == 0
  {
    hide BlockEvents, Row;
    OneOutput(TheWorld().env, 1, 1, 101, PAID);
    assert ChainEvents(TheWorld().env, [0, 1], 0) == [];
    assert ChainEvents(TheWorld().env, [0, 1], 1) == BlockEvents(TheWorld().env, 1, 1);
  }

  // Of the first two blocks one event does.
  lemma HistoryAtOne(back: Sys, start: seq<Wallet>, marks: set<Mark>)
    requires Inv(TheWorld(), Scope(start, [0]), back, marks) && CaughtUp(back) && back.chain == [0, 1] && |start| == 1
    ensures forall hist :: IsHistory(back.scan.ledger, HeaderTable(back.chain), 0, hist) <==> hist == [TxData(1, 101)]
  {
    hide Inv, CaughtUp, All, Pos, Owner, Row, BlockAt, HeaderTable, IsHistory, Used;
    var w := TheWorld();
    AllOfOne();
    Owners();
    var es, lows := EventsOfA()[..1], Lows(w.env, [0, 1], [0]);
    assert Pays(w.env, w.ids, lows, es, 0);
    assert COIN in AllOwned(w.env, w.ids, lows, es, 0, 1);
    assert RespectsGap(w, Scope(start, [0]), back.chain);
    HistoryAtTip(w, Scope(start, [0]), back, marks, 0, [0], [TxData(1, 101)]);
  }

  // The first wallet has caught up with chain A: its script was paid in block 1 and spent in block 2.
  // The peer goes over to chain B. After the rollback to block 1 the history of the script is another,
  // and nobody has been notified.
  lemma StatusStale() returns (x: Sys, back: Sys)
    ensures var w := TheWorld();
            && Arrives(w, [0], [A()], x) && |x.chain| >= 1 && TickHeaders(w.env, B(), x) == Some(back) && |back.chain| >= 1
            && (forall hist :: IsHistory(x.scan.ledger, HeaderTable(x.chain), 0, hist) <==> hist == [TxData(1, 101), TxData(2, 102)])
            && (forall hist :: IsHistory(back.scan.ledger, HeaderTable(back.chain), 0, hist) <==> hist == [TxData(1, 101)])
            && back.scan.updated == {}
  {
    hide GoodAction, RespectsGap, CaughtUp, Rounds, LabelsInRange, Fresh, All, Owner, DistinctScripts, ForkHeight, Inv, OracleLedger, HeaderTable, IsHistory, TickHeaders,
         ScopeAfter, MarksAfterTick, RollbackProof.Cut, Rollback;
    var w, sc := TheWorld(), FreshScope(TheWorld(), [0]);
    ScriptsDiffer();
    OursIsGood(A());
    OursIsGood(B());
    PartAtOne(A(), B());
    assert MinHeight(NewWallets(w.ids, [0], 0)) == 0;
    var mx;
    x, mx := DirectExact(w, [0], A());
    HistoryAtA(x, mx);
    ReorgRound(w, sc, x, mx, A(), B(), 1);
    back := TickHeaders(w.env, B(), x).value;
    TickKeepsInv(w, sc, x, mx, B());
    assert LoweredLow(sc.low, 1) == [0];
    BackAtFork(x, 1);
    IsCaughtUp(back);
    HistoryAtOne(back, sc.start, MarksAfterTick(w, x, mx, B()));
  }

  // ---- A wallet taken out ----

  lemma SecondHolds(x: Sys, marks: set<Mark>)
    requires 1 <= |[0, 0]| <= |TheWorld().ids|
    requires Inv(TheWorld(), FreshScope(TheWorld(), [0, 0]), x, marks) && CaughtUp(x) && x.chain == C().chain
    ensures Balance(x.scan.ledger.index, 1) == 3 && OutPoint(123, 0) in x.scan.ledger.unspent && x.scan.ledger.unspent[OutPoint(123, 0)] == OTHER
    ensures Owner(TheWorld().env, TheWorld().ids, 1) == Some(Info(1, Receive, 0))
  {
    hide Inv, CaughtUp, RespectsGap, All, Pos, Owner, Row, BlockAt, HeaderTable, Balance, HistoryTxs, Received, Paid;
    var w, sc := TheWorld(), FreshScope(TheWorld(), [0, 0]);
    AllOfC();
    Owners();
    assert MinHeight(NewWallets(w.ids, [0, 0], 0)) == 0;
    var es, lows := EventsOfC(), Lows(w.env, C().chain, sc.low);
    assert Pays(w.env, w.ids, lows, es, 2);
    var owned := AllOwned(w.env, w.ids, lows, es, 0, 3);
    assert OutPoint(123, 0) == es[2].op && es[2].op in owned;
    GapRespected(C(), sc.start, sc.low);
    CaughtUpIsOracle(w, sc, x, marks);
    TipOfInv(w, sc, x, marks, 1);
    SumsOfC(owned);
  }

  lemma SumsOfC(r: set<OutPoint>)
    requires OutPoint(123, 0) in r
    ensures Received(CoinAt, EventsOfC(), 3, r, 1) == 3 && Paid(CoinAt, EventsOfC(), 3, r, 1) == 0
  {
    hide Row, BlockAt;
    var es := EventsOfC();
    assert Received(CoinAt, es, 1, r, 1) == 0 && Paid(CoinAt, es, 1, r, 1) == 0;
    assert Received(CoinAt, es, 2, r, 1) == 0 && Paid(CoinAt, es, 2, r, 1) == 0;
  }

  // Both wallets have caught up with chain C, which pays 3 to the second. Restarted with the first
  // wallet alone, the answer for the second's script is 0 beside listings that add up to 3.
  lemma WalletTakenOut() returns (x: Sys, less: Sys)
    ensures var w := TheWorld();
            && Arrives(w, [0, 0], [C()], x) && |x.chain| >= 1 && less == Restart(w.env, w.ids[..1], [0], x)
            && Answer(x.scan.keys, x.scan.ledger, 1) == 3 && Answer(less.scan.keys, less.scan.ledger, 1) == 0
            && forall ops, rows :: IsListing(less.scan.ledger, HeaderTable(x.chain), 1, ops, rows) ==> Total(rows) == 3
  {
    hide GoodAction, RespectsGap, CaughtUp, Rounds, LabelsInRange, Fresh, Inv, OracleLedger, HeaderTable, IsListing, Restart, Answer, Total, FreshScope, DistinctScripts;
    var w, sc := TheWorld(), FreshScope(TheWorld(), [0, 0]);
    ScriptsDiffer();
    OursIsGood(C());
    var mx;
    x, mx := BothCaughtUp();
    less := Restart(w.env, w.ids[..1], [0], x);
    Unanswered(x, mx, less);
  }

  lemma BothCaughtUp() returns (x: Sys, marks: set<Mark>)
    ensures var w := TheWorld();
            1 <= |[0, 0]| <= |w.ids| && Arrives(w, [0, 0], [C()], x) && Inv(w, FreshScope(w, [0, 0]), x, marks) && CaughtUp(x) && x.chain == C().chain
  {
    hide GoodAction, RespectsGap, CaughtUp, Rounds, LabelsInRange, Fresh, Inv, OracleLedger, DistinctScripts;
    ScriptsDiffer();
    OursIsGood(C());
    assert MinHeight(NewWallets(TheWorld().ids, [0, 0], 0)) == 0;
    x, marks := DirectExact(TheWorld(), [0, 0], C());
  }

  lemma Unanswered(x: Sys, marks: set<Mark>, less: Sys)
    requires 1 <= |[0, 0]| <= |TheWorld().ids|
    requires Inv(TheWorld(), FreshScope(TheWorld(), [0, 0]), x, marks) && CaughtUp(x) && x.chain == C().chain
    requires less == Restart(TheWorld().env, TheWorld().ids[..1], [0], x)
    ensures |x.chain| >= 1 && Answer(x.scan.keys, x.scan.ledger, 1) == 3 && Answer(less.scan.keys, less.scan.ledger, 1) == 0
    ensures forall ops, rows :: IsListing(less.scan.ledger, HeaderTable(x.chain), 1, ops, rows) ==> Total(rows) == 3
  {
    hide Inv, CaughtUp, HeaderTable, IsListing, Restart, Balance, Total, Fits, Wf, All, Owner, FreshScope, RollbackProof.HeadersCover;
    var w, sc := TheWorld(), FreshScope(TheWorld(), [0, 0]);
    SecondHolds(x, marks);
    TwoWallets(x, marks);
    assert w.ids[..|[0]|] == w.ids[..1];
    FewerWallets(w, sc, x, marks, [0]);
    InvFits(w, sc, x, marks);
    forall ops, rows | IsListing(less.scan.ledger, HeaderTable(x.chain), 1, ops, rows) ensures Total(rows) == 3 {
      ListingTotalIsBalance(w.coin, All(w.env, x.chain), HeaderTable(x.chain), x.scan.ledger, 1, ops, rows);
    }
  }

  lemma TwoWallets(x: Sys, marks: set<Mark>)
    requires 1 <= |[0, 0]| <= |TheWorld().ids| && Inv(TheWorld(), FreshScope(TheWorld(), [0, 0]), x, marks)
    ensures |x.scan.keys.wallets| == 2
  {
    InvBasics(TheWorld(), FreshScope(TheWorld(), [0, 0]), x, marks);
  }
}
