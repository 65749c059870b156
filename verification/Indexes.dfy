// The derivation indexes a rollback leaves standing: the exact condition under which the blocks that
// replace orphaned ones are recorded, and two indexers that follow one chain from the same heights
// with different tables.
module StoredIndexes {
  import opened Base
  import opened Tables
  import opened Oracle
  import opened Passes
  import opened Derivation
  import opened Scan
  import opened Chain
  import opened Headers
  import opened System
  import opened Invariant
  import opened Runs
  import opened Theorems
  import RollbackProof

  // ---- syncWallets as one scan ----

  // Two scans that differ at most in heights, rows and notifications.
  ghost predicate Alike(a: Scan, b: Scan) {
    a.ledger == b.ledger && a.keys.watch == b.keys.watch && SameButHeights(a.keys.wallets, b.keys.wallets)
  }

  lemma RefillAlike(env: Env, x: Keys, y: Keys, i: nat, a: Account)
    requires x.watch == y.watch && SameButHeights(x.wallets, y.wallets) && i < |x.wallets|
    ensures RefillAccount(env, x, i, a).watch == RefillAccount(env, y, i, a).watch
    ensures SameButHeights(RefillAccount(env, x, i, a).wallets, RefillAccount(env, y, i, a).wallets)
  {
  }

  lemma StepAlike(env: Env, a: Scan, b: Scan, e: Event)
    requires LabelsInRange(a.keys) && LabelsInRange(b.keys) && Alike(a, b)
    ensures Alike(Step(env, a, e), Step(env, b, e))
  {
    hide RefillAccount;
    if e.Fund? && e.utxo.sh in a.keys.watch {
      var x := a.keys.watch[e.utxo.sh];
      var u, v := UpdateIndexes(a.keys, x), UpdateIndexes(b.keys, x);
      RefillAlike(env, u, v, x.walletIdx, Receive);
      RefillAccountInRange(env, u, x.walletIdx, Receive);
      RefillAlike(env, RefillAccount(env, u, x.walletIdx, Receive), RefillAccount(env, v, x.walletIdx, Receive), x.walletIdx, Change);
    }
  }

  lemma {:induction false} RunAlike(env: Env, a: Scan, b: Scan, es: seq<Event>, from: nat, upto: nat)
    requires from <= upto <= |es| && LabelsInRange(a.keys) && LabelsInRange(b.keys) && Alike(a, b)
    ensures Alike(Run(env, a, es, from, upto), Run(env, b, es, from, upto))
    decreases upto
  {
    hide Alike, Step, LabelsInRange;
    if from < upto {
      RunAlike(env, a, b, es, from, upto - 1);
      StepAlike(env, Run(env, a, es, from, upto - 1), Run(env, b, es, from, upto - 1), es[upto - 1]);
    }
  }

  lemma {:induction false} RunSplit(env: Env, s: Scan, es: seq<Event>, from: nat, mid: nat, upto: nat)
    requires from <= mid <= upto <= |es| && LabelsInRange(s.keys)
    ensures Run(env, s, es, from, upto) == Run(env, Run(env, s, es, from, mid), es, mid, upto)
    decreases upto
  {
    hide Step, LabelsInRange;
    if mid < upto {
      RunSplit(env, s, es, from, mid, upto - 1);
    }
  }

  lemma RaisedAlike(m: Scan, t: nat, after: Scan)
    requires BlockResult(m, t, after)
    ensures Alike(m, after)
  {
    hide RaisedRows;
  }

  lemma BlockAlike(w: World, chain: seq<Hash>, s: Scan, t: nat)
    requires 1 <= t < |chain| && LabelsInRange(s.keys)
    ensures Pos(w.env, chain, t - 1) <= Pos(w.env, chain, t)
    ensures Alike(Run(w.env, s, All(w.env, chain), Pos(w.env, chain, t - 1), Pos(w.env, chain, t)), ProcessBlock(w.env, s, chain[t], t))
  {
    hide Run, All, Pos, BlockEvents, Alike, LabelsInRange, RaisedRows;
    var q := s.(updated := {});
    BlockRun(w, chain, q, t - 1);
    var es, p, p1 := All(w.env, chain), Pos(w.env, chain, t - 1), Pos(w.env, chain, t);
    var m := Run(w.env, q, es, p, p1);
    assert Alike(s, q) by { AlikeSelf(s, q); }
    RunAlike(w.env, s, q, es, p, p1);
    RaisedAlike(m, t, ProcessBlock(w.env, s, chain[t], t));
    AlikeTwice(Run(w.env, s, es, p, p1), m, ProcessBlock(w.env, s, chain[t], t));
  }

  lemma AlikeTwice(a: Scan, b: Scan, c: Scan)
    requires Alike(a, b) && Alike(b, c)
    ensures Alike(a, c)
  {
  }

  lemma {:induction false} BlocksAlike(w: World, s: Scan, chain: seq<Hash>, from: nat, upto: nat)
    requires from <= upto < |chain| && LabelsInRange(s.keys)
    ensures Pos(w.env, chain, from) <= Pos(w.env, chain, upto)
    ensures Alike(Run(w.env, s, All(w.env, chain), Pos(w.env, chain, from), Pos(w.env, chain, upto)), ScanBlocks(w.env, s, chain, from, upto))
    decreases upto
  {
    hide All, Pos, Alike, ProcessBlock, LabelsInRange, Step;
    PosOrder(w.env, chain, from, upto);
    if from < upto {
      var es, p, q, r := All(w.env, chain), Pos(w.env, chain, from), Pos(w.env, chain, upto - 1), Pos(w.env, chain, upto);
      BlocksAlike(w, s, chain, from, upto - 1);
      var run, scanned := Run(w.env, s, es, p, q), ScanBlocks(w.env, s, chain, from, upto - 1);
      PosOrder(w.env, chain, upto - 1, upto);
      RunSplit(w.env, s, es, p, q, r);
      RunAlike(w.env, run, scanned, es, q, r);
      BlockAlike(w, chain, scanned, upto);
      AlikeTwice(Run(w.env, s, es, p, r), Run(w.env, scanned, es, q, r), ScanBlocks(w.env, s, chain, from, upto));
    } else {
      assert Alike(s, s) by { AlikeSelf(s, s); }
    }
  }

  lemma AlikeSelf(s: Scan, q: Scan)
    requires q == s.(updated := q.updated)
    ensures Alike(s, q)
  {
  }

  // ---- When what remains to be scanned is recorded in full ----

  // The outputs from height t on respect the gap of the indexes the wallets stand at.
  ghost predicate WithinReach(w: World, wallets: seq<Wallet>, chain: seq<Hash>, t: nat)
    requires |chain| >= 1
  {
    var es := All(w.env, chain);
    GapOk(w.env, w.ids, wallets, Flat(|wallets|, Pos(w.env, chain, t)), es, |es|)
  }

  // Everything paid to a followed wallet in the blocks up to t is known.
  ghost predicate CompleteBelow(w: World, low: seq<nat>, chain: seq<Hash>, t: nat, known: set<OutPoint>)
    requires |chain| >= 1
  {
    known == AllOwned(w.env, w.ids, Lows(w.env, chain, low), All(w.env, chain), 0, Pos(w.env, chain, t))
  }

  // Above p, where every wallet is followed, it does not matter from where.
  lemma OwnedAbove(w: World, lows: seq<nat>, es: seq<Event>, p: nat)
    requires p <= |es| && FollowedAt(lows, p)
    ensures AllOwned(w.env, w.ids, lows, es, p, |es|) == AllOwned(w.env, w.ids, Flat(|lows|, p), es, p, |es|)
  {
    forall k | p <= k < |es| ensures Pays(w.env, w.ids, lows, es, k) <==> Pays(w.env, w.ids, Flat(|lows|, p), es, k) {
    }
  }

  // What a set holds below the cut is what it held before, if all that came was created above.
  lemma PartBelow(w: World, lows: seq<nat>, es: seq<Event>, p: nat, r: set<OutPoint>, seen: set<OutPoint>)
    requires Wf(w.coin, es) && p <= |es| && seen * Funded(es, p) == r && seen == AllOwned(w.env, w.ids, lows, es, 0, |es|)
    ensures r == AllOwned(w.env, w.ids, lows, es, 0, p)
  {
    hide Wf, AllOwned, Funded;
    OwnedBelowCut(w, lows, es, p);
    AllOwnedSplit(w, lows, es, 0, p, |es|);
    AllOwnedIsFunded(w, lows, es, 0, p);
  }

  // The one scan behind syncWallets.
  lemma SyncIsOneScan(w: World, sc: Scope, sys: Sys, marks: set<Mark>) returns (seen: set<OutPoint>)
    requires Inv(w, sc, sys, marks) && OnePass(w, sys, marks) && LabelsInRange(sys.scan.keys) && MinHeight(sys.scan.keys.wallets) < |sys.chain|
    ensures var es, p := All(w.env, sys.chain), Pos(w.env, sys.chain, MinHeight(sys.scan.keys.wallets));
            && SyncWallets(w.env, sys).scan.ledger == Run(w.env, sys.scan, es, p, |es|).ledger == Meaning(w.coin, es, |es|, seen)
            && sys.scan.ledger == Meaning(w.coin, es, p, Known(marks)) && Known(marks) <= Funded(es, p)
            && seen * Funded(es, p) == Known(marks)
  {
    hide Wf, IsChain, KeysGood, IndexesOk, CompleteUpTo, Overlay, Meaning, MinHeight, All, Pos, Run, ScanBlocks, Counted, Known, AllOwned, Funded, Alike, LabelsInRange;
    var es, t, tip := All(w.env, sys.chain), MinHeight(sys.scan.keys.wallets), |sys.chain| - 1;
    var p := Pos(w.env, sys.chain, t);
    KnownIsFunded(w.coin, es, p, marks);
    PassesMeet(w.coin, es, p, marks);
    PosOrder(w.env, sys.chain, t, tip);
    seen := Seen(w.env, sys.scan, es, p, |es|, Known(marks));
    RunOfOnePass(w.env, w.coin, sys.scan, es, p, |es|, Known(marks));
    SeenAbove(w.env, w.coin, sys.scan, es, p, |es|, Known(marks));
    BlocksAlike(w, sys.scan, sys.chain, t, tip);
    SameTables(Run(w.env, sys.scan, es, p, |es|), ScanBlocks(w.env, sys.scan, sys.chain, t, tip));
    assert t == tip ==> ScanBlocks(w.env, sys.scan, sys.chain, t, tip) == sys.scan by { NoBlocks(w.env, sys.scan, sys.chain, tip); }
  }

  lemma SameTables(a: Scan, b: Scan)
    requires Alike(a, b)
    ensures a.ledger == b.ledger
  {
  }

  // From any state of a single pass, with whatever indexes earlier blocks left behind: syncWallets ends
  // with the oracle's tables if and only if nothing is missing where it begins and every output from
  // there on lies within a gap of the indexes the wallets stand at.
  lemma SyncExact(w: World, sc: Scope, sys: Sys, marks: set<Mark>)
    requires Inv(w, sc, sys, marks) && OnePass(w, sys, marks) && LabelsInRange(sys.scan.keys) && MinHeight(sys.scan.keys.wallets) < |sys.chain|
    ensures var t := MinHeight(sys.scan.keys.wallets);
            SyncWallets(w.env, sys).scan.ledger == OracleLedger(w, sc.low, sys.chain)
            <==> CompleteBelow(w, sc.low, sys.chain, t, Known(marks)) && WithinReach(w, sys.scan.keys.wallets, sys.chain, t)
  {
    hide Wf, IsChain, StartBelow, RowsAgree, KeysOk, IndexesOk, CompleteUpTo, LedgerGood, Meaning, MinHeight, All, Pos, Run, SyncWallets, Known, AllOwned, Funded, GapOk,
         LabelsInRange, OnePass;
    var es, t, r := All(w.env, sys.chain), MinHeight(sys.scan.keys.wallets), Known(marks);
    var p, lows := Pos(w.env, sys.chain, t), Lows(w.env, sys.chain, sc.low);
    var seen := SyncIsOneScan(w, sc, sys, marks);
    if SyncWallets(w.env, sys).scan.ledger == OracleLedger(w, sc.low, sys.chain) {
      MeaningInjective(w.coin, es, |es|, seen, Owned(w, sc.low, sys.chain));
      PartBelow(w, lows, es, p, r, seen);
    }
    if CompleteBelow(w, sc.low, sys.chain, t, r) {
      LowsBelow(w, sys.chain, sc.low, t);
      OwnedAbove(w, lows, es, p);
      AllOwnedSplit(w, lows, es, 0, p, |es|);
      GapExact(w.env, w.ids, w.coin, sys.scan, es, p, |es|, r);
    }
  }

  // ---- After a rollback ----

  // What is known after the cut is complete over any chain that shares the blocks up to there.
  lemma CompleteAfterCut(w: World, low: seq<nat>, chain: seq<Hash>, longer: seq<Hash>, h: nat, marks: set<Mark>)
    requires GoodChain(w, chain) && h < |chain| && h < |longer| && longer[..h + 1] == chain[..h + 1] && Known(marks) == Owned(w, low, chain)
    ensures CompleteBelow(w, LoweredLow(low, h), longer, h, Known(RollbackProof.Cut(All(w.env, chain), Pos(w.env, chain, h), marks)))
  {
    hide Wf, IsChain, IndexesOk, All, Pos, AllOwned, Known, Funded, RollbackProof.Cut;
    var es, fs, cut, lows := All(w.env, chain), All(w.env, longer), Pos(w.env, chain, h), Lows(w.env, chain, low);
    KnownCut(es, cut, marks);
    PartBelow(w, lows, es, cut, Known(marks) * Funded(es, cut), Known(marks));
    SharedPosition(w.env, chain, longer, h, h);
    LowsCut(w, chain, longer, low, h);
    AllOwnedSame(w, lows, Lows(w.env, longer, LoweredLow(low, h)), es, fs, cut, 0, cut);
  }

  lemma LowsCut(w: World, chain: seq<Hash>, longer: seq<Hash>, low: seq<nat>, h: nat)
    requires h < |chain| && h < |longer| && longer[..h + 1] == chain[..h + 1]
    ensures SameUpTo(Lows(w.env, chain, low), Lows(w.env, longer, LoweredLow(low, h)), Pos(w.env, chain, h))
  {
    hide Pos;
    forall i | 0 <= i < |low|
      ensures var a, b := Pos(w.env, chain, low[i]), Pos(w.env, longer, Min(low[i], h));
              a == b || (a >= Pos(w.env, chain, h) && b >= Pos(w.env, chain, h))
    {
      SharedPosition(w.env, chain, longer, h, Min(low[i], h));
      if low[i] > h { PosOrder(w.env, chain, h, low[i]); }
    }
  }

  // An index that has caught up in full, a rollback to h, and a longer chain from there: its new blocks
  // are recorded in full if and only if they lie within a gap of the indexes stored before the rollback,
  // those the orphaned blocks raised included.
  lemma AfterReorgExact(w: World, sc: Scope, sys: Sys, marks: set<Mark>, h: nat, longer: seq<Hash>)
    requires Inv(w, sc, sys, marks) && CaughtUp(sys) && sys.scan.ledger == OracleLedger(w, sc.low, sys.chain)
    requires h < |sys.chain| && h < |longer| && longer[..h + 1] == sys.chain[..h + 1] && GoodChain(w, longer)
    ensures RollbackAllowed(sys.scan.ledger, h)
    ensures var back := ProcessReorg(sys, HeaderTable(sys.chain), h).scan;
            && LabelsInRange(back.keys) && SameButHeights(sys.scan.keys.wallets, back.keys.wallets)
            && (SyncWallets(w.env, Sys(longer, back)).scan.ledger == OracleLedger(w, LoweredLow(sc.low, h), longer)
                <==> WithinReach(w, back.keys.wallets, longer, h))
  {
    hide Inv, GoodChain, CaughtUp, Rollback, RollbackAllowed, HeaderTable, Stored, MinHeight, SyncWallets, OnePass, All, Pos, Meaning, Owned, Known, Funded, LabelsInRange,
         RollbackProof.Cut, WithinReach, CompleteBelow;
    InvBasics(w, sc, sys, marks);
    HeaderTableIsStored(w.env, w.genesis, sys.chain);
    RefusedIff(w, sc, sys, marks, h);
    ReorgKeepsInv(w, sc, sys, marks, HeaderTable(sys.chain), h);
    var back := ProcessReorg(sys, HeaderTable(sys.chain), h);
    var sc1, left := Scope(sc.start, LoweredLow(sc.low, h)), RollbackProof.Cut(All(w.env, sys.chain), Pos(w.env, sys.chain, h), marks);
    InvBasics(w, sc1, back, left);
    assert GoodChain(w, sys.chain) by { InvGood(w, sc, sys, marks); }
    KnownIsOwned(w, sc, sys, marks);
    CompleteAfterCut(w, sc.low, sys.chain, longer, h, marks);
    BackAtFork(sys, h);
    assert CaughtUp(back) by { assert |back.chain| == h + 1; IsCaughtUp(back); }
    CaughtUpStays(w, sc1, back, left, longer);
    ExtendKeepsInv(w, sc1, back, left, longer);
    SyncExact(w, sc1, Sys(longer, back.scan), left);
  }

  lemma IsCaughtUp(sys: Sys)
    requires |sys.chain| >= 1 && |sys.scan.keys.wallets| >= 1 && MinHeight(sys.scan.keys.wallets) >= |sys.chain| - 1
    ensures CaughtUp(sys)
  {
  }

  lemma BackAtFork(sys: Sys, h: nat)
    requires CaughtUp(sys) && h < |sys.chain|
    ensures MinHeight(Lowered(sys.scan.keys.wallets, h)) == h && SameButHeights(sys.scan.keys.wallets, Lowered(sys.scan.keys.wallets, h))
  {
    hide MinHeight;
    LoweredMin(sys.scan.keys.wallets, h);
  }

  lemma KnownIsOwned(w: World, sc: Scope, sys: Sys, marks: set<Mark>)
    requires Inv(w, sc, sys, marks) && CaughtUp(sys) && sys.scan.ledger == OracleLedger(w, sc.low, sys.chain)
    ensures Known(marks) == Owned(w, sc.low, sys.chain)
  {
    hide Inv, CaughtUp, All, Meaning, Owned, Known;
    InvBasics(w, sc, sys, marks);
    CaughtUpIsOneScan(w, sc, sys, marks);
    MeaningInjective(w.coin, All(w.env, sys.chain), |All(w.env, sys.chain)|, Known(marks), Owned(w, sc.low, sys.chain));
  }

  // ---- Two indexers ----

  lemma ReachAlike(w: World, one: seq<Wallet>, two: seq<Wallet>, chain: seq<Hash>, t: nat)
    requires |chain| >= 1 && SameButHeights(one, two)
    ensures WithinReach(w, one, chain, t) <==> WithinReach(w, two, chain, t)
  {
    hide Pos, All, Owner;
    var es, lows := All(w.env, chain), Flat(|one|, Pos(w.env, chain, t));
    forall k, i, a | 0 <= k <= |es| && 0 <= i < |one| ensures Used(w.env, w.ids, one, lows, es, k, i, a) == Used(w.env, w.ids, two, lows, es, k, i, a) {
      UsedAlike(w, one, two, lows, es, k, i, a);
    }
    forall k | 0 <= k < |es| ensures WithinGap(w.env, w.ids, one, lows, es, k) <==> WithinGap(w.env, w.ids, two, lows, es, k) {
    }
  }

  lemma {:induction false} UsedAlike(w: World, one: seq<Wallet>, two: seq<Wallet>, lows: seq<nat>, es: seq<Event>, k: nat, i: nat, a: Account)
    requires SameButHeights(one, two) && |lows| == |one| && k <= |es| && i < |one|
    ensures Used(w.env, w.ids, one, lows, es, k, i, a) == Used(w.env, w.ids, two, lows, es, k, i, a)
    decreases k
  {
    if k > lows[i] {
      UsedAlike(w, one, two, lows, es, k - 1, i, a);
    }
  }

  lemma BirthReach(w: World, births: seq<nat>, chain: seq<Hash>)
    requires 1 <= |births| <= |w.ids| && |chain| >= 1
    ensures var wallets := NewWallets(w.ids, births, 0);
            RespectsGap(w, FreshScope(w, births), chain) <==> WithinReach(w, wallets, chain, MinHeight(wallets))
  {
    hide MinHeight, Pos, All, GapOk;
    var wallets := NewWallets(w.ids, births, 0);
    assert Lows(w.env, chain, FreshScope(w, births).low) == Flat(|births|, Pos(w.env, chain, MinHeight(wallets)));
  }

  // From an empty database, rounds against these peers end caught up, in state e.
  ghost predicate Arrives(w: World, births: seq<nat>, peers: seq<Peer>, e: Sys) {
    && |births| <= |w.ids| && |Fresh(w, births).chain| >= 1 && LabelsInRange(Fresh(w, births).scan.keys)
    && (forall p :: p in peers ==> |p.chain| >= 1)
    && Rounds(w.env, peers, Fresh(w, births)) == Some(e) && CaughtUp(e)
  }

  // An indexer that goes to chain b directly, from an empty database, holds the oracle's tables if and
  // only if b respects the gap.
  lemma DirectExact(w: World, births: seq<nat>, b: Peer) returns (end: Sys, marks: set<Mark>)
    requires 1 <= |births| <= |w.ids| && DistinctScripts(w.env, w.ids)
    requires GoodAction(w, HeaderTick(b)) && |b.chain| >= 1 && MinHeight(NewWallets(w.ids, births, 0)) < |b.chain|
    ensures Arrives(w, births, [b], end) && end.chain == b.chain && LabelsInRange(end.scan.keys) && Inv(w, FreshScope(w, births), end, marks)
    ensures end.scan.ledger == OracleLedger(w, FreshScope(w, births).low, b.chain) <==> RespectsGap(w, FreshScope(w, births), b.chain)
  {
    hide Inv, GoodChain, CaughtUp, LabelsInRange, MinHeight, OracleLedger, RespectsGap, Tick, TickHeaders, SyncWallets, ScopeAfter, Fresh, OnePass, Pos, All, AllOwned, WithinReach,
         CompleteBelow, Rounds;
    FreshIsGood(w, births);
    var s, sc := Fresh(w, births), FreshScope(w, births);
    var wallets := NewWallets(w.ids, births, 0);
    PeerHasGenesis(w, s, b);
    FollowedRound(w, sc, s, {}, b);
    end := Tick(w.env, b, s).value;
    var n, sc1;
    n, sc1, marks := TickIsARun(w, sc, s, {}, b, end);
    OneRound(w.env, b, s, end);
    var start := Sys(b.chain, Quiet(s).scan);
    TickOf(w.env, b, s, start, end);
    QuietKeepsInv(w, sc, s, {});
    assert b.chain[..1] == [w.genesis] by { GoodNonEmpty(w, b.chain); }
    assert GoodChain(w, b.chain);
    ExtendKeepsInv(w, sc, Quiet(s), {}, b.chain);
    NoPass(w, start);
    NothingBelow(w, sc.low, b.chain, MinHeight(wallets));
    BirthReach(w, births, b.chain);
    SyncExact(w, sc, start, {});
  }

  lemma NothingBelow(w: World, low: seq<nat>, chain: seq<Hash>, t: nat)
    requires |chain| >= 1 && forall i :: 0 <= i < |low| ==> low[i] == t
    ensures CompleteBelow(w, low, chain, t, {}) && Known({}) == {}
  {
    hide Pos, All;
  }

  lemma TickOf(env: Env, peer: Peer, sys: Sys, mid: Sys, end: Sys)
    requires |sys.chain| >= 1 && |peer.chain| >= 1 && LabelsInRange(sys.scan.keys) && Tick(env, peer, sys) == Some(end)
    requires TickHeaders(env, peer, sys) == Some(mid)
    ensures |mid.chain| >= 1 && LabelsInRange(mid.scan.keys) && end == SyncWallets(env, mid)
  {
    hide TickHeaders, SyncWallets, LabelsInRange;
  }

  // An index that is exact on a's chain goes through the reorg to b's chain.
  lemma ThroughReorg(w: World, sc: Scope, x: Sys, mx: set<Mark>, a: Peer, b: Peer, f: nat) returns (y: Sys, end: Sys, marks: set<Mark>)
    requires Inv(w, sc, x, mx) && CaughtUp(x) && x.chain == a.chain && |a.chain| >= 1 && |b.chain| >= 1 && LabelsInRange(x.scan.keys)
    requires GoodAction(w, HeaderTick(b)) && ForkHeight(a.chain, b.chain, f) && f + 1 < |a.chain| <= f + 7 && 1 <= f && FollowedAt(sc.low, f)
    requires x.scan.ledger == OracleLedger(w, sc.low, a.chain)
    ensures Tick(w.env, b, x) == Some(y) && |y.chain| >= 1 && LabelsInRange(y.scan.keys) && Tick(w.env, b, y) == Some(end)
    ensures Inv(w, sc, end, marks) && CaughtUp(end) && end.chain == b.chain && LabelsInRange(end.scan.keys)
    ensures end.scan.ledger == OracleLedger(w, sc.low, b.chain) <==> WithinReach(w, x.scan.keys.wallets, b.chain, f)
  {
    hide Inv, GoodAction, CaughtUp, OracleLedger, LabelsInRange, MinHeight, Tick, TickHeaders, ScopeAfter, SyncSpec, ForkHeight, WithinReach, SyncWallets, ProcessReorg, HeaderTable,
         RollbackAllowed, SameButHeights;
    ForkInside(a.chain, b.chain, f);
    ReorgRound(w, sc, x, mx, a, b, f);
    y := Tick(w.env, b, x).value;
    var ny, scy, my := TickIsARun(w, sc, x, mx, b, y);
    LowStands(sc.low, f);
    ReorgIsExact(w, sc, x, mx, f, b);
    var mid := ProcessReorg(Quiet(x), HeaderTable(x.chain), f);
    TickOf(w.env, b, x, mid, y);
    StandsAtFork(w.env, x, f);
    TipOfPrefix(y, b, f);
    FollowedRound(w, sc, y, my, b);
    end := Tick(w.env, b, y).value;
    TickOf(w.env, b, y, Sys(b.chain, Quiet(y).scan), end);
    var n, sc1;
    n, sc1, marks := TickIsARun(w, sc, y, my, b, end);
  }

  lemma ReorgIsExact(w: World, sc: Scope, x: Sys, mx: set<Mark>, f: nat, b: Peer)
    requires Inv(w, sc, x, mx) && CaughtUp(x) && x.scan.ledger == OracleLedger(w, sc.low, x.chain) && FollowedAt(sc.low, f)
    requires GoodAction(w, HeaderTick(b)) && f < |x.chain| && f < |b.chain| && b.chain[..f + 1] == x.chain[..f + 1]
    ensures var back := ProcessReorg(Quiet(x), HeaderTable(x.chain), f).scan;
            LabelsInRange(back.keys) && (SyncWallets(w.env, Sys(b.chain, back)).scan.ledger == OracleLedger(w, sc.low, b.chain)
                                         <==> WithinReach(w, x.scan.keys.wallets, b.chain, f))
  {
    hide Inv, GoodChain, MinHeight, OracleLedger, LabelsInRange, WithinReach, SyncWallets, ProcessReorg, HeaderTable, RollbackAllowed, SameButHeights;
    QuietKeepsInv(w, sc, x, mx);
    LowStands(sc.low, f);
    AfterReorgExact(w, sc, Quiet(x), mx, f, b.chain);
    ReachAlike(w, x.scan.keys.wallets, ProcessReorg(Quiet(x), HeaderTable(x.chain), f).scan.keys.wallets, b.chain, f);
  }

  // One indexer follows a peer to chain a and through a reorg to chain b, the other goes to b directly;
  // both follow every wallet from below the fork. The first, which stood at x when the reorg came, is
  // exact if and only if what b has above the fork lies within a gap of the indexes a left behind; the
  // second if and only if b respects the gap. So where the first is exact, the two agree if and only
  // if b respects the gap.
  lemma IndexesShow(w: World, births: seq<nat>, a: Peer, b: Peer, f: nat) returns (x: Sys, mx: set<Mark>, e1: Sys, e2: Sys)
    requires 1 <= |births| <= |w.ids| && DistinctScripts(w.env, w.ids)
    requires GoodAction(w, HeaderTick(a)) && GoodAction(w, HeaderTick(b)) && |a.chain| >= 1 && |b.chain| >= 1
    requires ForkHeight(a.chain, b.chain, f) && f + 1 < |a.chain| <= f + 7 && 1 <= f && MinHeight(NewWallets(w.ids, births, 0)) <= f
    requires RespectsGap(w, FreshScope(w, births), a.chain)
    ensures Arrives(w, births, [a], x) && x.chain == a.chain && Inv(w, FreshScope(w, births), x, mx)
    ensures Arrives(w, births, [a, b, b], e1) && Arrives(w, births, [b], e2) && e1.chain == e2.chain == b.chain
    ensures var low := FreshScope(w, births).low;
            && (e1.scan.ledger == OracleLedger(w, low, b.chain) <==> WithinReach(w, x.scan.keys.wallets, b.chain, f))
            && (e2.scan.ledger == OracleLedger(w, low, b.chain) <==> RespectsGap(w, FreshScope(w, births), b.chain))
    ensures WithinReach(w, x.scan.keys.wallets, b.chain, f) ==>
              (e1.scan.ledger == e2.scan.ledger <==> RespectsGap(w, FreshScope(w, births), b.chain))
  {
    hide Inv, GoodAction, CaughtUp, RespectsGap, OracleLedger, LabelsInRange, MinHeight, Tick, Rounds, ForkHeight, Fresh, WithinReach;
    FreshIsGood(w, births);
    ForkInside(a.chain, b.chain, f);
    var s, sc := Fresh(w, births), FreshScope(w, births);
    var m2, y, m1;
    x, mx := DirectExact(w, births, a);
    e2, m2 := DirectExact(w, births, b);
    y, e1, m1 := ThroughReorg(w, sc, x, mx, a, b, f);
    ThroughThree(w, births, a, b, x, y, e1);
    if RespectsGap(w, sc, b.chain) {
      CaughtUpIsOracle(w, sc, e1, m1);
    }
  }

  lemma ThroughThree(w: World, births: seq<nat>, a: Peer, b: Peer, x: Sys, y: Sys, e: Sys)
    requires |a.chain| >= 1 && |b.chain| >= 1 && Arrives(w, births, [a], x) && |x.chain| >= 1 && LabelsInRange(x.scan.keys)
    requires Tick(w.env, b, x) == Some(y) && |y.chain| >= 1 && LabelsInRange(y.scan.keys)
    requires Tick(w.env, b, y) == Some(e) && CaughtUp(e) && LabelsInRange(e.scan.keys)
    ensures Arrives(w, births, [a, b, b], e)
  {
    hide Tick, LabelsInRange, Fresh, MinHeight;
    var s := Fresh(w, births);
    assert [a][..0] == [];
    assert Rounds(w.env, [], s) == Some(s);
    assert Tick(w.env, a, s) == Some(x);
    ThreeRounds(w.env, a, b, b, s, x, y, e);
  }

  lemma ForkInside(a: seq<Hash>, b: seq<Hash>, f: nat)
    requires ForkHeight(a, b, f)
    ensures f < |a| && f < |b| && a[..f + 1] == b[..f + 1]
  {
  }

  lemma LowStands(low: seq<nat>, f: nat)
    requires FollowedAt(low, f)
    ensures LoweredLow(low, f) == low
  {
  }

  // Rolled back to the fork there is nothing to scan, and nobody notified.
  lemma StandsAtFork(env: Env, x: Sys, f: nat)
    requires CaughtUp(x) && f < |x.chain|
    ensures var mid := ProcessReorg(Quiet(x), HeaderTable(x.chain), f);
            && Quiet(mid) == mid && CaughtUp(Quiet(x)) && (LabelsInRange(mid.scan.keys) ==> SyncWallets(env, mid) == mid)
  {
    hide MinHeight, Rollback, LabelsInRange;
    BackAtFork(x, f);
  }
}
