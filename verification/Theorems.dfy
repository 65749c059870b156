// The whole indexer from an empty database: what every run keeps and where it must end.
module Theorems {
  import opened Base
  import opened Tables
  import opened Oracle
  import opened Passes
  import opened Derivation
  import opened Scan
  import opened Chain
  import opened Headers
  import opened System
  import opened Invariant
  import opened Runs
  import opened Queries
  import RollbackProof
  import Codec
  import Merkle

  // ---- The first start ----

  // An empty database, the headers not yet fetched, every wallet at its birth height.
  function Fresh(w: World, births: seq<nat>): Sys
    requires |births| <= |w.ids|
  {
    Restart(w.env, w.ids[..|births|], births, Sys([w.genesis], Scan(EMPTY, Keys([], map[]), map[], {})))
  }

  lemma {:induction false} SetupFresh(env: Env, ids: seq<Hash>, births: seq<nat>, n: nat)
    requires DistinctScripts(env, ids) && n <= |ids| == |births|
    ensures var (ks, rows) := Setup(env, ids, births, map[], n);
            && Window(env, ks) && Ids(ks.wallets) == ids[..n] && RowsAgree(ks.wallets, rows)
            && (forall i :: 0 <= i < n ==> ks.wallets[i] == Wallet(ids[i], births[i], 0, GAP, 0, GAP))
  {
    hide Window, DistinctScripts, AddWallet, RowsAgree;
    if n == 0 {
      EmptyWindow(env);
      NoRows();
    } else {
      SetupFresh(env, ids, births, n - 1);
      var (ks, rows) := Setup(env, ids, births, map[], n - 1);
      var wl := Wallet(ids[n - 1], births[n - 1], 0, GAP, 0, GAP);
      DistinctPrefix(env, ids, n);
      NoRowYet(env, ids, ks.wallets, rows, n - 1);
      AddWalletKeepsWindow(env, ks, ids[n - 1], births[n - 1], 0, 0);
      assert Ids(ks.wallets + [wl]) == ids[..n];
      RowsAgreeAppend(ks.wallets, rows, wl);
    }
  }

  lemma NoRows()
    ensures RowsAgree([], map[])
  {
  }

  lemma GenesisIsGood(w: World)
    ensures GoodChain(w, [w.genesis])
  {
    assert All(w.env, [w.genesis]) == [];
  }

  // The wallets as configured, followed from the lowest birth height on.
  function FreshScope(w: World, births: seq<nat>): Scope
    requires 1 <= |births| <= |w.ids|
  {
    var wallets := NewWallets(w.ids, births, 0);
    Scope(wallets, Flat(|births|, MinHeight(wallets)))
  }

  lemma FreshIsGood(w: World, births: seq<nat>)
    requires 1 <= |births| <= |w.ids| && DistinctScripts(w.env, w.ids)
    ensures var s := Fresh(w, births);
            && s.chain == [w.genesis] && LabelsInRange(s.scan.keys) && s.scan.keys.wallets == NewWallets(w.ids, births, 0)
            && s.scan.ledger == EMPTY && Inv(w, FreshScope(w, births), s, {}) && OnePass(w, s, {})
  {
    hide GoodChain, Window, DistinctScripts, RowsAgree, LabelsInRange, MinHeight, AddWallet;
    DistinctPrefix(w.env, w.ids, |births|);
    var ids := w.ids[..|births|];
    SetupFresh(w.env, ids, births, |births|);
    assert ids[..|births|] == ids;
    var s := Fresh(w, births);
    assert s.scan.keys.wallets == NewWallets(w.ids, births, 0);
    WindowLabels(w.env, s.scan.keys);
    GenesisIsGood(w);
    UnstartedInv(w, FreshScope(w, births), [w.genesis], s.scan);
  }

  // At the first start exactly indices 0 .. 1999 of both accounts of every configured wallet are watched.
  lemma FirstWindow(w: World, births: seq<nat>, x: Info)
    requires 1 <= |births| <= |w.ids| && DistinctScripts(w.env, w.ids) && x.walletIdx < |w.ids| && x.idx < TWO_32
    ensures Script(w.env, w.ids, x) in Fresh(w, births).scan.keys.watch <==> x.walletIdx < |births| && x.idx < 2000
  {
    hide Fresh, Inv, OnePass, DistinctScripts, Owner;
    FreshIsGood(w, births);
    var s := Fresh(w, births);
    InvBasics(w, FreshScope(w, births), s, {});
    OwnerIs(w.env, w.ids, x, Script(w.env, w.ids, x));
    WatchedIff(w.env, w.ids, s.scan.keys, Script(w.env, w.ids, x));
  }

  // ---- Every reachable state ----

  // Safety over every run from an empty database - headers from any peers, reorgs, single blocks,
  // restarts, wallets added: the stored headers form one chain from genesis, the cache is the unspent
  // table, memory and wallet rows agree, every account is derived exactly one gap past its next index
  // under the right labels. A rollback to any height would be accepted when all wallets are at the
  // tip, and always when no wallet was added.
  lemma EveryReachableState(w: World, births: seq<nat>, acts: seq<Action>)
    requires 1 <= |births| <= |w.ids| && DistinctScripts(w.env, w.ids)
    requires forall a :: a in acts ==> GoodAction(w, a)
    ensures var s := Fresh(w, births);
            |s.chain| >= 1 && LabelsInRange(s.scan.keys)
    ensures var end := RunAll(w, Fresh(w, births), FreshScope(w, births), acts);
            end.Some? ==>
              var sys := end.value.0;
              && IsChain(w.env, w.genesis, sys.chain)
              && sys.scan.ledger.index == sys.scan.ledger.unspent
              && RowsAgree(sys.scan.keys.wallets, sys.scan.rows)
              && KeysOk(w.env, w.ids, sys.scan.keys)
              && forall h: nat :: CaughtUp(sys) || NoneAdded(|births|, acts) ==> RollbackAllowed(sys.scan.ledger, h)
  {
    hide Fresh, RunAll, GoodAction, Inv, OnePass, MinHeight, KeysOk, RowsAgree, CaughtUp, LabelsInRange, RollbackAllowed, NoneAdded;
    FreshIsGood(w, births);
    var s, sc := Fresh(w, births), FreshScope(w, births);
    var marks := EveryRunKeepsInv(w, sc, s, {}, acts);
    var end := RunAll(w, s, sc, acts);
    if end.Some? {
      InvBasics(w, end.value.1, end.value.0, marks);
      if NoneAdded(|births|, acts) {
        marks := RunKeepsOnePass(w, sc, s, {}, acts);
      }
      forall h: nat | CaughtUp(end.value.0) || NoneAdded(|births|, acts) ensures RollbackAllowed(end.value.0.scan.ledger, h) {
        RefusedIff(w, end.value.1, end.value.0, marks, h);
      }
    }
  }

  // After any run from an empty database that has caught up with a gap-respecting chain, the tables are
  // those of an oracle that watches every index of every wallet on that chain alone, above the height
  // the run came to follow it from.
  lemma IndexIsAnOracle(w: World, births: seq<nat>, acts: seq<Action>)
    requires 1 <= |births| <= |w.ids| && DistinctScripts(w.env, w.ids)
    requires forall a :: a in acts ==> GoodAction(w, a)
    ensures var s := Fresh(w, births);
            |s.chain| >= 1 && LabelsInRange(s.scan.keys)
    ensures var end := RunAll(w, Fresh(w, births), FreshScope(w, births), acts);
            end.Some? && CaughtUp(end.value.0) && RespectsGap(w, end.value.1, end.value.0.chain) ==>
              end.value.0.scan.ledger == OracleLedger(w, end.value.1.low, end.value.0.chain)
  {
    hide Fresh, RunAll, GoodAction, Inv, OnePass, CaughtUp, RespectsGap, OracleLedger, LabelsInRange;
    FreshIsGood(w, births);
    RunsAreScansOfTheirChain(w, FreshScope(w, births), Fresh(w, births), {}, acts);
  }

  // Caught up with a gap-respecting chain, the index is a function of that chain and the configuration:
  // if no peer ever parted from the others at or below the lowest birth height, that height is where
  // all wallets are followed from, and the tables are the oracle's above it, whatever the path.
  lemma IndexIsAFunctionOfTheChain(w: World, births: seq<nat>, acts: seq<Action>, prefix: seq<Hash>)
    requires 1 <= |births| <= |w.ids| && DistinctScripts(w.env, w.ids)
    requires (forall a :: a in acts ==> GoodAction(w, a)) && NoneAdded(|births|, acts)
    requires PeersShare(acts, prefix) && MinHeight(NewWallets(w.ids, births, 0)) < |prefix|
    ensures var s := Fresh(w, births);
            |s.chain| >= 1 && LabelsInRange(s.scan.keys)
    ensures var sc := FreshScope(w, births);
            var end := RunAll(w, Fresh(w, births), sc, acts);
            end.Some? && CaughtUp(end.value.0) && RespectsGap(w, sc, end.value.0.chain) ==>
              end.value.0.scan.ledger == OracleLedger(w, sc.low, end.value.0.chain)
  {
    hide Fresh, RunAll, GoodAction, Inv, OnePass, CaughtUp, RespectsGap, OracleLedger, LabelsInRange, PeersShare, MinHeight, NoneAdded;
    FreshIsGood(w, births);
    LowStays(w, FreshScope(w, births), Fresh(w, births), {}, acts, prefix);
    RunsAreScansOfTheirChain(w, FreshScope(w, births), Fresh(w, births), {}, acts);
  }

  // ---- Rollback undoes scanning ----

  // From a state that has caught up with its chain, scan any blocks above it and roll back to the old
  // tip: the headers, tx, scriptpubkey_tx, unspent_output, spent_output and utxoIndex are exactly
  // those held before, every wallet is at the old tip again, and no derivation index is lower.
  lemma RollbackUndoesScanning(w: World, sc: Scope, sys: Sys, marks: set<Mark>, longer: seq<Hash>)
    requires Inv(w, sc, sys, marks) && CaughtUp(sys) && LabelsInRange(sys.scan.keys) && GoodChain(w, longer)
    requires |sys.chain| <= |longer| && longer[..|sys.chain|] == sys.chain
    ensures var h := |sys.chain| - 1;
            var scanned := SyncWallets(w.env, Sys(longer, sys.scan));
            |scanned.chain| == |longer| && RollbackAllowed(scanned.scan.ledger, h)
    ensures var h := |sys.chain| - 1;
            var back := ProcessReorg(SyncWallets(w.env, Sys(longer, sys.scan)), HeaderTable(longer), h);
            && back.chain == sys.chain && back.scan.ledger == sys.scan.ledger
            && IndexesUp(sys.scan.keys, back.scan.keys)
            && forall i :: 0 <= i < |back.scan.keys.wallets| ==> back.scan.keys.wallets[i].height == h
  {
    hide Inv, GoodChain, LabelsInRange, MinHeight, ScanBlocks, Rollback, RollbackAllowed, HeaderTable, Meaning, Funded, All, Pos, OnePass, Known, Overlay;
    var h, t, tip := |sys.chain| - 1, MinHeight(sys.scan.keys.wallets), |longer| - 1;
    var before := Sys(longer, sys.scan);
    InvBasics(w, sc, sys, marks);
    ExtendKeepsInv(w, sc, sys, marks, longer);
    CaughtUpStays(w, sc, sys, marks, longer);
    var marks1, scanned := marks, SyncWallets(w.env, before);
    if t < tip {
      marks1 := ScanBlocksKeepInv(w, sc, before, marks, tip);
    }
    InvBasics(w, sc, scanned, marks1);
    RollbackToOldTip(w, sc, sys, marks, scanned, marks1, h);
    assert longer[..h + 1] == sys.chain;
  }

  // What was known at the old tip is what is known below it now.
  lemma RollbackToOldTip(w: World, sc: Scope, sys: Sys, marks: set<Mark>, scanned: Sys, marks1: set<Mark>, h: nat)
    requires Inv(w, sc, sys, marks) && CaughtUp(sys) && Inv(w, sc, scanned, marks1) && OnePass(w, scanned, marks1)
    requires h == |sys.chain| - 1 < |scanned.chain| && scanned.chain[..h + 1] == sys.chain && h <= MinHeight(scanned.scan.keys.wallets)
    requires Known(marks1) * Funded(All(w.env, scanned.chain), Pos(w.env, scanned.chain, MinHeight(sys.scan.keys.wallets)))
             == Known(marks) * Funded(All(w.env, scanned.chain), Pos(w.env, scanned.chain, MinHeight(sys.scan.keys.wallets)))
    ensures RollbackAllowed(scanned.scan.ledger, h)
    ensures Rollback(scanned.scan.ledger, HeaderTable(scanned.chain), h) == sys.scan.ledger
  {
    hide KeysGood, IndexesOk, CompleteUpTo, Wf, Rollback, RollbackAllowed, Meaning, Overlay, Funded, All, Pos, Stored, HeaderTable, Known, MinHeight, AllOwned, Counted, RollbackProof.Cut, Placed;
    var es, fs := All(w.env, sys.chain), All(w.env, scanned.chain);
    var t, t1 := MinHeight(sys.scan.keys.wallets), MinHeight(scanned.scan.keys.wallets);
    var cut := Pos(w.env, scanned.chain, h);
    CaughtUpIsOneScan(w, sc, sys, marks);
    GoodNonEmpty(w, scanned.chain);
    HeaderTableIsStored(w.env, w.genesis, scanned.chain);
    RefusedIff(w, sc, scanned, marks1, h);
    ReorgKeepsInv(w, sc, scanned, marks1, HeaderTable(scanned.chain), h);
    var left := RollbackProof.Cut(fs, cut, marks1);
    var back := ProcessReorg(scanned, HeaderTable(scanned.chain), h);
    assert back.chain == sys.chain;
    LoweredMin(scanned.scan.keys.wallets, h);
    CaughtUpIsOneScan(w, Scope(sc.start, LoweredLow(sc.low, h)), back, left);
    KnownCut(fs, cut, marks1);
    assert sys.chain[..h + 1] == sys.chain;
    SharedPosition(w.env, scanned.chain, sys.chain, h, h);
    PosOrder(w.env, sys.chain, h, h);
    PrefixFunded(fs, es, cut);
    PosOrder(w.env, scanned.chain, h, t);
    FundedGrows(fs, cut, Pos(w.env, scanned.chain, t));
    RestrictTwice(Known(marks1), Known(marks), Funded(fs, Pos(w.env, scanned.chain, t)), Funded(fs, cut));
  }

  lemma PrefixFunded(fs: seq<Event>, es: seq<Event>, cut: nat)
    requires cut <= |fs| && es == fs[..cut]
    ensures Funded(fs, cut) == Funded(es, |es|)
  {
    forall k | 0 <= k < cut ensures fs[k] == es[k] {
    }
  }

  lemma RestrictTwice(a: set<OutPoint>, b: set<OutPoint>, all: set<OutPoint>, some: set<OutPoint>)
    requires a * all == b * all && some <= all && b <= some
    ensures a * some == b
  {
    forall o | o in a * some ensures o in b {
      assert o in a * all;
    }
    forall o | o in b ensures o in a {
      assert o in b * all;
    }
  }

  // All passes of a caught-up state stand together, on a longer chain too.
  lemma CaughtUpStays(w: World, sc: Scope, sys: Sys, marks: set<Mark>, longer: seq<Hash>)
    requires Inv(w, sc, sys, marks) && CaughtUp(sys) && GoodChain(w, longer)
    requires |sys.chain| <= |longer| && longer[..|sys.chain|] == sys.chain
    ensures OnePass(w, Sys(longer, sys.scan), marks)
  {
    hide KeysGood, IndexesOk, CompleteUpTo, Wf, Meaning, Overlay, Funded, All, Pos, Known, MinHeight, AllOwned, Counted;
    var t, tip := MinHeight(sys.scan.keys.wallets), |sys.chain| - 1;
    CaughtUpIsOneScan(w, sc, sys, marks);
    if t == tip {
      assert longer[..tip + 1] == sys.chain[..tip + 1];
      SharedPosition(w.env, sys.chain, longer, tip, tip);
      PosOrder(w.env, sys.chain, tip, tip);
    }
  }

  // ---- What a client is told ----

  // For a script hash: the listed rows are the outputs it holds, each with its place on the chain and its
  // amount, and the balance answered is what they add up to; its history is one list, in the order of the
  // chain; and every stored proof, cut back into hashes, leads to its block's Merkle root.
  ghost predicate Truthful(env: Env, chain: seq<Hash>, s: Scan, header: map<Hash, nat>, sh: Hash) {
    && (forall ops, rows :: IsListing(s.ledger, header, sh, ops, rows) ==>
          Answer(s.keys, s.ledger, sh) == Total(rows) % TWO_64 && ListingOnChain(env, chain, s.ledger, sh, ops, rows))
    && (forall a, b :: IsHistory(s.ledger, header, sh, a) && IsHistory(s.ledger, header, sh, b) ==> a == b)
    && (forall a :: IsHistory(s.ledger, header, sh, a) ==> HistoryOnChain(env, chain, a))
    && (forall t, cut :: t in s.ledger.tx && Codec.Flatten(cut) == s.ledger.tx[t].proof ==> ProofHolds(env, s.ledger.tx[t], t, cut))
  }

  ghost predicate ProofHolds(env: Env, row: TxRow, t: Hash, cut: seq<Hash>) {
    var txs := env.blockOf(row.blockHash).txs;
    row.pos < |txs| && txs[row.pos].txid == t
    && Merkle.Climb(env.pairHash, t, row.pos, cut) == Merkle.Root(env.pairHash, Txids(txs))
  }

  // The tables of a reachable state say what the chain says.
  lemma InvFits(w: World, sc: Scope, sys: Sys, marks: set<Mark>)
    requires Inv(w, sc, sys, marks)
    ensures |sys.chain| >= 1 && Wf(w.coin, All(w.env, sys.chain)) && Fits(w.coin, All(w.env, sys.chain), sys.scan.ledger)
    ensures RollbackProof.HeadersCover(All(w.env, sys.chain), HeaderTable(sys.chain)) && Closed(sys.scan.ledger)
    ensures forall o :: o in sys.scan.ledger.unspent ==> sys.scan.ledger.unspent[o].sh in sys.scan.keys.watch
  {
    hide KeysOk, RowsAgree, IndexesOk, CompleteUpTo, Wf, Overlay, All, Pos, Known, MinHeight, AllOwned, Counted, HeaderTable, Stored, Described, RowOf, Occurs;
    InvBasics(w, sc, sys, marks);
    var es, p := All(w.env, sys.chain), Pos(w.env, sys.chain, MinHeight(sys.scan.keys.wallets));
    DescribedWithin(w.coin, es, p, marks);
    OverlayFits(w.coin, es, p, marks);
    HeaderTableIsStored(w.env, w.genesis, sys.chain);
    StoredCovers(w, sys.chain, HeaderTable(sys.chain));
    UnspentIsKnown(w.coin, es, marks);
    forall o | o in sys.scan.ledger.unspent ensures sys.scan.ledger.unspent[o].sh in sys.scan.keys.watch {
      assert o in Known(marks);
      CountedIsWatched(w.env, w.ids, w.coin, sys.scan.keys, o);
    }
  }

  lemma InvIsTruthful(w: World, sc: Scope, sys: Sys, marks: set<Mark>, sh: Hash)
    requires Inv(w, sc, sys, marks)
    ensures |sys.chain| >= 1 && Truthful(w.env, sys.chain, sys.scan, HeaderTable(sys.chain), sh)
  {
    hide Inv, Wf, Fits, All, HeaderTable, IsListing, IsHistory, ListingOnChain, HistoryOnChain, Total, Answer, Merkle.Climb, Merkle.Root, Codec.Flatten, RollbackProof.HeadersCover;
    InvFits(w, sc, sys, marks);
    var header, l, es := HeaderTable(sys.chain), sys.scan.ledger, All(w.env, sys.chain);
    forall ops, rows | IsListing(l, header, sh, ops, rows)
      ensures Answer(sys.scan.keys, l, sh) == Total(rows) % TWO_64 && ListingOnChain(w.env, sys.chain, l, sh, ops, rows)
    {
      AnswerIsTotal(w.coin, es, header, l, sys.scan.keys, sh, ops, rows);
      ListingIsOnChain(w.env, w.coin, sys.chain, header, l, sh, ops, rows);
    }
    forall a, b | IsHistory(l, header, sh, a) && IsHistory(l, header, sh, b) ensures a == b {
      HistoryIsUnique(w.env, w.coin, sys.chain, header, l, sh, a, b);
    }
    forall a | IsHistory(l, header, sh, a) ensures HistoryOnChain(w.env, sys.chain, a) {
      HistoryIsOnChain(w.env, w.coin, sys.chain, header, l, sh, a);
    }
    forall t, cut | t in l.tx && Codec.Flatten(cut) == l.tx[t].proof ensures ProofHolds(w.env, l.tx[t], t, cut) {
      StoredProofsStayValid(w.env, w.coin, sys.chain, l, t, cut);
    }
  }

  // In every reachable state, in the middle of a rescan too.
  lemma EveryAnswerIsTruthful(w: World, births: seq<nat>, acts: seq<Action>, sh: Hash)
    requires 1 <= |births| <= |w.ids| && DistinctScripts(w.env, w.ids)
    requires forall a :: a in acts ==> GoodAction(w, a)
    ensures var s := Fresh(w, births);
            |s.chain| >= 1 && LabelsInRange(s.scan.keys)
    ensures var end := RunAll(w, Fresh(w, births), FreshScope(w, births), acts);
            end.Some? && |end.value.0.chain| >= 1 ==>
              Truthful(w.env, end.value.0.chain, end.value.0.scan, HeaderTable(end.value.0.chain), sh)
  {
    hide Fresh, RunAll, GoodAction, Inv, OnePass, LabelsInRange, Truthful, HeaderTable;
    FreshIsGood(w, births);
    var marks := EveryRunKeepsInv(w, FreshScope(w, births), Fresh(w, births), {}, acts);
    var end := RunAll(w, Fresh(w, births), FreshScope(w, births), acts);
    if end.Some? {
      InvIsTruthful(w, end.value.1, end.value.0, marks, sh);
    }
  }

  // ---- A wallet taken out of the configuration ----

  // A restart with the first n wallets only leaves the tables as they are. An output in them is watched
  // if and only if its owner is one of the n, so by AnswerIff the balance answered for a script hash of
  // a wallet taken out is wrong exactly when its listing adds up to something.
  lemma FewerWallets(w: World, sc: Scope, sys: Sys, marks: set<Mark>, births: seq<nat>)
    requires Inv(w, sc, sys, marks) && |births| <= |sys.scan.keys.wallets|
    ensures |births| <= |w.ids|
    ensures var after := Restart(w.env, w.ids[..|births|], births, sys);
            && after.chain == sys.chain && after.scan.ledger == sys.scan.ledger && after.scan.keys.wallets == sys.scan.keys.wallets[..|births|]
            && forall o :: o in sys.scan.ledger.unspent ==>
                 var owner := Owner(w.env, w.ids, sys.scan.ledger.unspent[o].sh);
                 owner.Some? && (sys.scan.ledger.unspent[o].sh in after.scan.keys.watch <==> owner.value.walletIdx < |births|)
  {
    hide IndexesOk, CompleteUpTo, Wf, Overlay, All, Pos, Known, MinHeight, AllOwned, Described, RowsAgree, LabelsInRange, Placed, AddWallet, Window, IsChain, DistinctScripts;
    InvBasics(w, sc, sys, marks);
    var n, l := |births|, sys.scan.ledger;
    SetupRebuilds(w, sc, births, sys.scan, n);
    RestartChain(w.env, w.ids[..n], births, sys);
    var ks := Setup(w.env, w.ids[..n], births, sys.scan.rows, n).0;
    PrefixIds(w, sc, sys.scan, n);
    assert l.(index := l.unspent) == l;
    assert KeysOk(w.env, w.ids, ks);
    var es, p := All(w.env, sys.chain), Pos(w.env, sys.chain, MinHeight(sys.scan.keys.wallets));
    DescribedWithin(w.coin, es, p, marks);
    OverlayFits(w.coin, es, p, marks);
    UnspentIsKnown(w.coin, es, marks);
    forall o | o in l.unspent
      ensures var owner := Owner(w.env, w.ids, l.unspent[o].sh);
              owner.Some? && (l.unspent[o].sh in ks.watch <==> owner.value.walletIdx < n)
    {
      FitsCoin(w.coin, es, l, o);
      assert o in Known(marks) && Counted(w.env, w.ids, w.coin, sys.scan.keys, o);
      WatchedIff(w.env, w.ids, ks, l.unspent[o].sh);
    }
  }

  lemma FitsCoin(coin: OutPoint -> Utxo, es: seq<Event>, l: Ledger, o: OutPoint)
    requires Fits(coin, es, l) && o in l.unspent
    ensures l.unspent[o] == coin(o)
  {
    hide RowOf, Occurs, SpendHeight, SpentOps;
  }

  // ---- At the tip ----

  // Conservation: on a gap-respecting chain what a script hash holds at the tip is what the chain paid
  // to it above the heights its wallets are followed from, less what it paid out; and its history is
  // the transactions that did either.
  lemma TipOfInv(w: World, sc: Scope, sys: Sys, marks: set<Mark>, sh: Hash)
    requires Inv(w, sc, sys, marks) && CaughtUp(sys) && RespectsGap(w, sc, sys.chain)
    ensures TipHolds(w, sc.low, sys, sh)
  {
    hide Inv, IsChain, IndexesOk, Wf, Balance, Paid, Received, Funded, Meaning, RespectsGap, HistoryTxs, HeaderTable, Stored, RollbackProof.HeadersCover, All, Owned, Known;
    CaughtUpIsOracle(w, sc, sys, marks);
    CaughtUpIsOneScan(w, sc, sys, marks);
    InvFits(w, sc, sys, marks);
    var es, r, header := All(w.env, sys.chain), Owned(w, sc.low, sys.chain), HeaderTable(sys.chain);
    Conservation(w.coin, es, |es|, r, sh);
    IndexOfMeaning(w.coin, es, |es|, r);
    forall t
      ensures t in HistoryTxs(sys.scan.ledger, header, sh) <==> exists k :: 0 <= k < |es| && es[k].txid == t && es[k].op in r && w.coin(es[k].op).sh == sh
    {
      HistoryIsExact(w.coin, es, header, |es|, r, sh, t);
    }
  }

  lemma IndexOfMeaning(coin: OutPoint -> Utxo, es: seq<Event>, p: nat, r: set<OutPoint>)
    requires p <= |es|
    ensures Meaning(coin, es, p, r).index == Unspent(coin, es, p, r)
  {
  }

  ghost predicate TipHolds(w: World, low: seq<nat>, sys: Sys, sh: Hash) {
    |sys.chain| >= 1 &&
    var es, owned := All(w.env, sys.chain), Owned(w, low, sys.chain);
    && Balance(sys.scan.ledger.index, sh) + Paid(w.coin, es, |es|, owned, sh) == Received(w.coin, es, |es|, owned, sh)
    && forall t :: t in HistoryTxs(sys.scan.ledger, HeaderTable(sys.chain), sh)
                   <==> exists k :: 0 <= k < |es| && es[k].txid == t && es[k].op in owned && w.coin(es[k].op).sh == sh
  }

  // An amount that fits the supply of 21 million bitcoins is answered as it is, watched or not.
  lemma TipAnswer(w: World, sc: Scope, sys: Sys, marks: set<Mark>, sh: Hash)
    requires Inv(w, sc, sys, marks) && CaughtUp(sys) && RespectsGap(w, sc, sys.chain)
    ensures |sys.chain| >= 1
    ensures var es, owned := All(w.env, sys.chain), Owned(w, sc.low, sys.chain);
            var held := Received(w.coin, es, |es|, owned, sh) - Paid(w.coin, es, |es|, owned, sh);
            held <= 2_100_000_000_000_000 ==> Answer(sys.scan.keys, sys.scan.ledger, sh) == held
  {
    hide Inv, CaughtUp, RespectsGap, Balance, Paid, Received, All, Owned, Wf, Fits, HistoryTxs, HeaderTable, RollbackProof.HeadersCover;
    TipOfInv(w, sc, sys, marks, sh);
    InvFits(w, sc, sys, marks);
    var l := sys.scan.ledger;
    assert l.index == l.unspent by { IndexIsUnspent(w.coin, All(w.env, sys.chain), l); }
    if sh !in sys.scan.keys.watch {
      NothingHeld(l.unspent, sh);
    }
  }

  lemma IndexIsUnspent(coin: OutPoint -> Utxo, es: seq<Event>, l: Ledger)
    requires Fits(coin, es, l)
    ensures l.index == l.unspent
  {
  }

  // After every run from an empty database that has caught up with a gap-respecting chain.
  lemma TipBalance(w: World, births: seq<nat>, acts: seq<Action>, sh: Hash)
    requires 1 <= |births| <= |w.ids| && DistinctScripts(w.env, w.ids)
    requires forall a :: a in acts ==> GoodAction(w, a)
    ensures var s := Fresh(w, births);
            |s.chain| >= 1 && LabelsInRange(s.scan.keys)
    ensures var end := RunAll(w, Fresh(w, births), FreshScope(w, births), acts);
            end.Some? && CaughtUp(end.value.0) && RespectsGap(w, end.value.1, end.value.0.chain) ==>
              TipHolds(w, end.value.1.low, end.value.0, sh)
  {
    hide Fresh, RunAll, GoodAction, Inv, OnePass, CaughtUp, RespectsGap, TipHolds, LabelsInRange;
    FreshIsGood(w, births);
    var marks := EveryRunKeepsInv(w, FreshScope(w, births), Fresh(w, births), {}, acts);
    var end := RunAll(w, Fresh(w, births), FreshScope(w, births), acts);
    if end.Some? && CaughtUp(end.value.0) && RespectsGap(w, end.value.1, end.value.0.chain) {
      TipOfInv(w, end.value.1, end.value.0, marks, sh);
    }
  }

  // ---- Statuses ----

  // In every reachable state, in the middle of a rescan too: a script hash that the next block does not
  // notify has exactly the histories it had before.
  lemma EveryBlockNotifies(w: World, sc: Scope, sys: Sys, marks: set<Mark>, header: map<Hash, nat>, sh: Hash, hist: seq<Codec.TxData>)
    requires CanScan(sys) && Inv(w, sc, sys, marks) && sh !in ScanOne(w.env, sys).scan.updated
    ensures IsHistory(sys.scan.ledger, header, sh, hist) <==> IsHistory(ScanOne(w.env, sys).scan.ledger, header, sh, hist)
  {
    hide Inv, LabelsInRange, MinHeight, IsHistory, ProcessBlock, Fits, Wf, Closed;
    InvFits(w, sc, sys, marks);
    var t := MinHeight(sys.scan.keys.wallets) + 1;
    BlockNotificationsSuffice(w.env, sys.scan, sys.chain[t], t, header, sh, hist);
  }

  // A subscriber of sh was last told the status of hist; then came a rollback to h, new headers, and
  // blocks that notified it of nothing. What it was told is still true if and only if nothing in hist
  // lies above h.
  lemma LastStatusIsCurrentIff(w: World, sc: Scope, sys: Sys, marks: set<Mark>, h: nat, longer: seq<Hash>, upto: nat, sh: Hash, hist: seq<Codec.TxData>, now: seq<Codec.TxData>)
    requires Inv(w, sc, sys, marks) && h < |sys.chain| && RollbackAllowed(sys.scan.ledger, h) && GoodChain(w, longer)
    requires h < |longer| && longer[..h + 1] == sys.chain[..h + 1]
    requires LabelsInRange(sys.scan.keys) && |sys.scan.keys.wallets| >= 1
    requires IsHistory(sys.scan.ledger, HeaderTable(sys.chain), sh, hist)
    requires var back := ProcessReorg(sys, HeaderTable(sys.chain), h);
             LabelsInRange(back.scan.keys) && |back.scan.keys.wallets| >= 1
             && MinHeight(back.scan.keys.wallets) <= upto < |longer|
             && sh !in Notified(w.env, back.scan, longer, MinHeight(back.scan.keys.wallets), upto)
             && IsHistory(ScanBlocks(w.env, back.scan, longer, MinHeight(back.scan.keys.wallets), upto).ledger, HeaderTable(longer), sh, now)
    ensures now == hist <==> forall i :: 0 <= i < |hist| ==> hist[i].height <= h
  {
    hide Inv, GoodChain, LabelsInRange, MinHeight, ScanBlocks, Notified, Rollback, RollbackAllowed, HeaderTable, IsHistory, All, Pos, Fits, Wf, Closed,
         RollbackProof.Cut, HeadersUpTo, RollbackProof.HeadersCover;
    InvFits(w, sc, sys, marks);
    InvBasics(w, sc, sys, marks);
    var header := HeaderTable(sys.chain);
    HeaderTableIsStored(w.env, w.genesis, sys.chain);
    ReorgKeepsInv(w, sc, sys, marks, header, h);
    var back := ProcessReorg(sys, header, h);
    var sc1, marks1 := Scope(sc.start, LoweredLow(sc.low, h)), RollbackProof.Cut(All(w.env, sys.chain), Pos(w.env, sys.chain, h), marks);
    InvFits(w, sc1, back, marks1);
    BlocksNotify(w.env, back.scan, longer, MinHeight(back.scan.keys.wallets), upto, HeaderTable(longer), sh, now);
    GoodNonEmpty(w, longer);
    HeadersOfPrefix(w, sys.chain, longer, h);
    NewHeadersKeepHistories(w.coin, All(w.env, back.chain), back.scan.ledger, HeaderTable(back.chain), HeaderTable(longer), sh, now);
    StaleIff(w.env, w.coin, sys.chain, header, sys.scan.ledger, h, sh, hist, now);
  }

  lemma HeadersOfPrefix(w: World, chain: seq<Hash>, longer: seq<Hash>, h: nat)
    requires IsChain(w.env, w.genesis, chain) && IsChain(w.env, w.genesis, longer)
    requires h < |chain| && h < |longer| && longer[..h + 1] == chain[..h + 1]
    ensures |chain| >= 1 && |longer| >= 1 && |chain[..h + 1]| >= 1
    ensures HeaderTable(chain[..h + 1]) == HeadersUpTo(HeaderTable(chain), h)
    ensures forall b :: b in HeaderTable(chain[..h + 1]) ==> b in HeaderTable(longer) && HeaderTable(longer)[b] == HeaderTable(chain[..h + 1])[b]
  {
    hide HeaderTable;
    var pre := chain[..h + 1];
    assert IsChain(w.env, w.genesis, pre) by { forall i | 0 <= i < |pre| ensures pre[i] == chain[i] {} }
    HeaderTableIsStored(w.env, w.genesis, chain);
    HeaderTableIsStored(w.env, w.genesis, pre);
    HeaderTableIsStored(w.env, w.genesis, longer);
    var a, b, c := HeaderTable(chain), HeaderTable(pre), HeaderTable(longer);
    forall x | x in b ensures x in a && a[x] == b[x] && x in c && c[x] == b[x] {
      assert pre[b[x]] == chain[b[x]] == longer[..h + 1][b[x]] == longer[b[x]];
    }
    forall x | x in a && a[x] <= h ensures x in b {
      assert pre[a[x]] == chain[a[x]];
    }
  }

  // ---- Two histories of one chain ----

  // Before the first header round there is nothing to lower; afterwards one round against a peer that
  // has the tip changes no scope.
  lemma FollowedRound(w: World, sc: Scope, sys: Sys, marks: set<Mark>, peer: Peer)
    requires Inv(w, sc, sys, marks) && GoodAction(w, HeaderTick(peer)) && |sys.chain| >= 1 && |peer.chain| >= 1 && LabelsInRange(sys.scan.keys)
    requires sys.chain[|sys.chain| - 1] in peer.chain
    ensures TickHeaders(w.env, peer, sys) == Some(Sys(peer.chain, Quiet(sys).scan))
    ensures ScopeAfter(w.env, w.ids, sys, sc, HeaderTick(peer)) == sc
    ensures Tick(w.env, peer, sys).Some?
  {
    hide Inv, GoodAction, LabelsInRange, SyncWallets;
    TickOfHeaders(w, sc, sys, marks, peer);
  }

  // One indexer follows a peer to chain a and then through a reorg to chain b, which parts from a at
  // height f below every birth height; another goes to b directly. They end with the same tables if
  // and only if b pays no wallet between f and the lowest birth height.
  lemma TwoHistories(w: World, births: seq<nat>, a: Peer, b: Peer, f: nat) returns (e1: Sys, e2: Sys)
    requires 1 <= |births| <= |w.ids| && DistinctScripts(w.env, w.ids)
    requires GoodAction(w, HeaderTick(a)) && GoodAction(w, HeaderTick(b)) && |a.chain| >= 1 && |b.chain| >= 1
    requires ForkHeight(a.chain, b.chain, f) && f + 1 < |a.chain| <= f + 7 && 1 <= f < MinHeight(NewWallets(w.ids, births, 0))
    requires var start := NewWallets(w.ids, births, 0);
             RespectsGap(w, Scope(start, Flat(|births|, f)), b.chain) && RespectsGap(w, FreshScope(w, births), b.chain)
    ensures |Fresh(w, births).chain| >= 1 && LabelsInRange(Fresh(w, births).scan.keys)
    ensures Rounds(w.env, [a, b, b], Fresh(w, births)) == Some(e1) && Rounds(w.env, [b], Fresh(w, births)) == Some(e2)
    ensures e1.chain == e2.chain == b.chain && CaughtUp(e1) && CaughtUp(e2)
    ensures e1.scan.ledger == e2.scan.ledger <==> forall k :: !PaidBetween(w, b.chain, Flat(|births|, f), FreshScope(w, births).low, k)
  {
    hide Inv, GoodChain, OnePass, CaughtUp, RespectsGap, OracleLedger, LabelsInRange, MinHeight, RunAll, Tick, TickHeaders, PaidBetween, Rounds, ScopeAfter, SyncSpec, ForkHeight, Fresh;
    FreshIsGood(w, births);
    var s, sc := Fresh(w, births), FreshScope(w, births);
    var low := Scope(sc.start, Flat(|births|, f));
    // the indexer that goes to b directly
    PeerHasGenesis(w, s, b);
    FollowedRound(w, sc, s, {}, b);
    e2 := Tick(w.env, b, s).value;
    var n2, sc2, m2 := TickIsARun(w, sc, s, {}, b, e2);
    OneRound(w.env, b, s, e2);
    CaughtUpIsOracle(w, sc2, e2, m2);
    // the one that goes to a first
    PeerHasGenesis(w, s, a);
    FollowedRound(w, sc, s, {}, a);
    var x := Tick(w.env, a, s).value;
    var nx, scx, mx := TickIsARun(w, sc, s, {}, a, x);
    ReorgRound(w, sc, x, mx, a, b, f);
    var y := Tick(w.env, b, x).value;
    var ny, scy, my := TickIsARun(w, sc, x, mx, b, y);
    LoweredToFlat(sc, f);
    TipOfPrefix(y, b, f);
    FollowedRound(w, low, y, my, b);
    e1 := Tick(w.env, b, y).value;
    var n1, sc1, m1 := TickIsARun(w, low, y, my, b, e1);
    ThreeRounds(w.env, a, b, b, s, x, y, e1);
    CaughtUpIsOracle(w, low, e1, m1);
    OraclesAgreeIff(w, b.chain, low.low, sc.low);
  }

  lemma PeerHasGenesis(w: World, sys: Sys, peer: Peer)
    requires sys.chain == [w.genesis] && GoodAction(w, HeaderTick(peer))
    ensures sys.chain[|sys.chain| - 1] in peer.chain
  {
    GoodNonEmpty(w, peer.chain);
    assert peer.chain[0] == w.genesis;
  }

  lemma LoweredToFlat(sc: Scope, f: nat)
    requires forall i :: 0 <= i < |sc.low| ==> f <= sc.low[i]
    ensures LoweredLow(sc.low, f) == Flat(|sc.low|, f)
  {
  }

  lemma TipOfPrefix(sys: Sys, peer: Peer, f: nat)
    requires f < |peer.chain| && sys.chain == peer.chain[..f + 1]
    ensures |sys.chain| >= 1 && sys.chain[|sys.chain| - 1] in peer.chain
  {
    assert sys.chain[f] == peer.chain[f];
  }

  // A round against a peer that parted at height f, at most 6 below the tip.
  lemma ReorgRound(w: World, sc: Scope, sys: Sys, marks: set<Mark>, a: Peer, b: Peer, f: nat)
    requires Inv(w, sc, sys, marks) && CaughtUp(sys) && sys.chain == a.chain && |a.chain| >= 1 && |b.chain| >= 1 && LabelsInRange(sys.scan.keys)
    requires GoodAction(w, HeaderTick(b)) && ForkHeight(a.chain, b.chain, f) && f + 1 < |a.chain| <= f + 7 && 1 <= f
    ensures TickHeaders(w.env, b, sys).Some? && Tick(w.env, b, sys).Some?
    ensures TickHeaders(w.env, b, sys).value.chain == b.chain[..f + 1] && f < |b.chain|
    ensures TickHeaders(w.env, b, sys).value == ProcessReorg(Quiet(sys), HeaderTable(sys.chain), f)
    ensures ScopeAfter(w.env, w.ids, sys, sc, HeaderTick(b)) == Scope(sc.start, LoweredLow(sc.low, f))
  {
    hide Inv, GoodChain, CaughtUp, LabelsInRange, RollbackAllowed, ProcessReorg, IsChain, CheckReorgSpec;
    InvBasics(w, sc, sys, marks);
    GoodNonEmpty(w, b.chain);
    ForkFindingExact(w.env, w.genesis, b, sys.chain, f);
    RefusedIff(w, sc, sys, marks, f);
    ProcessReorgChain(Quiet(sys), HeaderTable(sys.chain), f);
    TickOfHeaders(w, sc, sys, marks, b);
  }

  lemma OneRound(env: Env, a: Peer, s: Sys, x: Sys)
    requires |s.chain| >= 1 && LabelsInRange(s.scan.keys) && |a.chain| >= 1 && Tick(env, a, s) == Some(x)
    requires |x.chain| >= 1 && LabelsInRange(x.scan.keys)
    ensures Rounds(env, [a], s) == Some(x)
  {
    hide Tick, LabelsInRange;
    assert [a][..0] == [];
    assert Rounds(env, [], s) == Some(s);
  }

  lemma ThreeRounds(env: Env, a: Peer, b: Peer, c: Peer, s: Sys, x: Sys, y: Sys, z: Sys)
    requires |s.chain| >= 1 && LabelsInRange(s.scan.keys) && |a.chain| >= 1 && |b.chain| >= 1 && |c.chain| >= 1
    requires Tick(env, a, s) == Some(x) && |x.chain| >= 1 && LabelsInRange(x.scan.keys)
    requires Tick(env, b, x) == Some(y) && |y.chain| >= 1 && LabelsInRange(y.scan.keys)
    requires Tick(env, c, y) == Some(z) && |z.chain| >= 1 && LabelsInRange(z.scan.keys)
    ensures Rounds(env, [a, b, c], s) == Some(z)
  {
    hide Tick, LabelsInRange;
    OneRound(env, a, s, x);
    assert [a, b][..1] == [a] && [a, b, c][..2] == [a, b];
    assert Rounds(env, [a, b], s) == Some(y);
  }
}
