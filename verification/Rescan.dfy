// A wallet configured later makes syncWallets run again over blocks scanned before: what that comes
// to, and exactly when a rollback in the middle of it is refused.
module RescanProof {
  import opened Base
  import opened Tables
  import opened Oracle
  import opened Passes
  import opened Derivation
  import opened Scan
  import opened Chain
  import opened Headers
  import opened System
  import opened Invariant
  import opened Runs
  import RollbackProof

  // ---- What is known only grows while blocks are scanned ----

  lemma {:induction false} SeenGrows(env: Env, s: Scan, es: seq<Event>, from: nat, mid: nat, upto: nat, r: set<OutPoint>)
    requires from <= mid <= upto <= |es| && LabelsInRange(s.keys)
    ensures Seen(env, s, es, from, mid, r) <= Seen(env, s, es, from, upto, r)
    decreases upto
  {
    hide Recognised, Run, LabelsInRange;
    if mid < upto {
      SeenGrows(env, s, es, from, mid, upto - 1, r);
    }
  }

  lemma BlockGrows(w: World, sc: Scope, sys: Sys, marks: set<Mark>)
    requires CanScan(sys) && Inv(w, sc, sys, marks)
    ensures Known(marks) <= Known(AfterBlock(w, sys, marks))
  {
    hide Wf, IsChain, KeysGood, IndexesOk, CompleteUpTo, Overlay, AllOwned, Counted, All, Pos, MinHeight, LabelsInRange, Seen, Marked, Known, Funded;
    var es, t := All(w.env, sys.chain), MinHeight(sys.scan.keys.wallets);
    var p, p1, s := Pos(w.env, sys.chain, t), Pos(w.env, sys.chain, t + 1), sys.scan.(updated := {});
    PosOrder(w.env, sys.chain, t, t + 1);
    KnownMarked(w.env, s, es, p, p1, marks);
    SeenGrows(w.env, s, es, p, p, p1, Known(marks));
    SeenNothing(w.env, s, es, p, Known(marks));
  }

  lemma SeenNothing(env: Env, s: Scan, es: seq<Event>, p: nat, r: set<OutPoint>)
    requires p <= |es| && LabelsInRange(s.keys)
    ensures Seen(env, s, es, p, p, r) == r
  {
  }

  lemma {:induction false} ScanBlocksGrow(w: World, sc: Scope, sys: Sys, marks: set<Mark>, upto: nat) returns (marks1: set<Mark>)
    requires Inv(w, sc, sys, marks) && |sys.chain| >= 1 && LabelsInRange(sys.scan.keys) && |sys.scan.keys.wallets| >= 1
    requires MinHeight(sys.scan.keys.wallets) <= upto < |sys.chain|
    ensures var after := sys.(scan := ScanBlocks(w.env, sys.scan, sys.chain, MinHeight(sys.scan.keys.wallets), upto));
            Inv(w, sc, after, marks1) && |after.scan.keys.wallets| >= 1 && MinHeight(after.scan.keys.wallets) == upto
    ensures Known(marks) <= Known(marks1)
    decreases upto
  {
    hide Inv, ProcessBlock, LabelsInRange, MinHeight, All, Pos, AfterBlock, Known;
    marks1 := marks;
    var from := MinHeight(sys.scan.keys.wallets);
    if from < upto {
      marks1 := ScanBlocksGrow(w, sc, sys, marks, upto - 1);
      var mid := sys.(scan := ScanBlocks(w.env, sys.scan, sys.chain, from, upto - 1));
      assert CanScan(mid);
      BlockKeepsInv(w, sc, mid, marks1);
      BlockGrows(w, sc, mid, marks1);
      marks1 := AfterBlock(w, mid, marks1);
      InvBasics(w, sc, ScanOne(w.env, mid), marks1);
    }
  }

  // ---- Wallets added ----

  // Adding wallets of any birth heights at any time, with whatever the header round of the new process
  // brings: when the wallets have caught up, the tables are those of one scan, and on a gap-respecting
  // chain the oracle's.
  lemma AddedWalletsCatchUp(w: World, sc: Scope, sys: Sys, marks: set<Mark>, births: seq<nat>, peer: Peer, end: Sys) returns (sc1: Scope, marks1: set<Mark>)
    requires Inv(w, sc, sys, marks) && |sys.scan.keys.wallets| <= |births| <= |w.ids|
    requires |sys.chain| >= 1 && |peer.chain| >= 1 && GoodAction(w, HeaderTick(peer))
    requires var again := Restart(w.env, w.ids[..|births|], births, sys);
             |again.chain| >= 1 && LabelsInRange(again.scan.keys) && Tick(w.env, peer, again) == Some(end)
    ensures Inv(w, sc1, end, marks1) && CaughtUp(end) && |end.chain| >= 1 && |sc1.low| == |births|
    ensures end.scan.ledger == Meaning(w.coin, All(w.env, end.chain), |All(w.env, end.chain)|, Known(marks1))
    ensures RespectsGap(w, sc1, end.chain) ==> end.scan.ledger == OracleLedger(w, sc1.low, end.chain)
  {
    hide Inv, Restart, Tick, GoodAction, RunAll, LabelsInRange, CaughtUp, RespectsGap, OracleLedger, Meaning, All, Known;
    RestartAdds0(w, sc, sys, marks, births);
    RestartKeepsInv(w, sc, sys, marks, births);
    var again := Restart(w.env, w.ids[..|births|], births, sys);
    var sc0 := ScopeAfter(w.env, w.ids, sys, sc, Reboot(births));
    var n;
    n, sc1, marks1 := TickIsARun(w, sc0, again, marks, peer, end);
    CaughtUpIsOneScan(w, sc1, end, marks1);
    if RespectsGap(w, sc1, end.chain) {
      CaughtUpIsOracle(w, sc1, end, marks1);
    }
  }

  lemma RestartAdds0(w: World, sc: Scope, sys: Sys, marks: set<Mark>, births: seq<nat>)
    requires Inv(w, sc, sys, marks) && |sys.scan.keys.wallets| <= |births| <= |w.ids| && |sys.chain| >= 1
    ensures var again := Restart(w.env, w.ids[..|births|], births, sys);
            && |again.scan.keys.wallets| == |births| && again.scan.ledger == sys.scan.ledger && again.chain == sys.chain
            && LabelsInRange(again.scan.keys) && |births| >= 1
            && |ScopeAfter(w.env, w.ids, sys, sc, Reboot(births)).low| == |births|
            && ScopeAfter(w.env, w.ids, sys, sc, Reboot(births)) == MoreScope(sc, again.scan.keys.wallets)
  {
    hide Inv, Restart, KeysOk, RowsAgree, LabelsInRange, MinHeight;
    InvBasics(w, sc, sys, marks);
    RestartAdds(w, sc, sys, births);
    RestartChain(w.env, w.ids[..|births|], births, sys);
    assert sys.scan.ledger.(index := sys.scan.ledger.unspent) == sys.scan.ledger;
  }

  // Rescanning is idempotent: if the added wallets have no output that is not known already, the second
  // pass over the same chain ends with the very tables it began with, although spent outputs come back
  // as unspent in between.
  lemma RescanLeavesNoTrace(w: World, sc: Scope, sys: Sys, marks: set<Mark>, births: seq<nat>)
    requires Inv(w, sc, sys, marks) && CaughtUp(sys) && |sys.scan.keys.wallets| <= |births| <= |w.ids|
    ensures var again := Restart(w.env, w.ids[..|births|], births, sys);
            |again.chain| >= 1 && LabelsInRange(again.scan.keys)
    ensures var again := Restart(w.env, w.ids[..|births|], births, sys);
            Owned(w, ScopeAfter(w.env, w.ids, sys, sc, Reboot(births)).low, sys.chain) <= Known(marks) ==>
              SyncWallets(w.env, again).scan.ledger == sys.scan.ledger
  {
    hide Inv, Restart, ScanBlocks, LabelsInRange, MinHeight, Meaning, All, Known, Owned, Funded, ScopeAfter, MoreScope, Wf;
    RestartAdds0(w, sc, sys, marks, births);
    RestartKeepsInv(w, sc, sys, marks, births);
    var again := Restart(w.env, w.ids[..|births|], births, sys);
    var sc0 := ScopeAfter(w.env, w.ids, sys, sc, Reboot(births));
    var tip := |sys.chain| - 1;
    var after := SyncWallets(w.env, again);
    if MinHeight(again.scan.keys.wallets) >= tip {
      assert after == again;
    } else if Owned(w, sc0.low, sys.chain) <= Known(marks) {
      var m := ScanBlocksGrow(w, sc0, again, marks, tip);
      CaughtUpIsOneScan(w, sc, sys, marks);
      CaughtUpIsOneScan(w, sc0, after, m);
      assert after.chain == sys.chain && Known(m) <= Owned(w, sc0.low, sys.chain);
      assert Known(m) == Known(marks);
    }
  }

  // ---- The second pass, and the refused rollback ----

  lemma {:induction false} SecondPass(env: Env, s: Scan, es: seq<Event>, from: nat, upto: nat, q: nat, r: set<OutPoint>, met: set<OutPoint>)
    requires from <= upto <= q && upto <= |es| && LabelsInRange(s.keys)
    ensures Marked(env, s, es, from, upto, Single(q, r) + Single(from, met)) == Single(q, r) + Single(upto, Seen(env, s, es, from, upto, met))
    decreases upto
  {
    hide Recognised, Run, LabelsInRange, Notice;
    if from < upto {
      var p := upto - 1;
      SecondPass(env, s, es, from, p, q, r, met);
      var near := Seen(env, s, es, from, p, met);
      NearAndFar(p, q, r, near);
    }
  }

  lemma NearAndFar(p: nat, q: nat, r: set<OutPoint>, near: set<OutPoint>)
    requires p < q
    ensures Beyond(Single(q, r) + Single(p, near), p) == Single(q, r)
    ensures At(Single(q, r) + Single(p, near), p) == near
  {
    var marks := Single(q, r) + Single(p, near);
    forall o | o in near ensures o in At(marks, p) {
      assert Mark(p, o) in marks;
    }
    forall m | m in Single(q, r) ensures m in Beyond(marks, p) {
    }
  }

  // What was recognised once is recognised again: its script is watched ever after.
  lemma SeenAgain(env: Env, ids: seq<Hash>, coin: OutPoint -> Utxo, s: Scan, es: seq<Event>, from: nat, upto: nat, met: set<OutPoint>, k: nat)
    requires from <= k < upto <= |es| && LabelsInRange(s.keys) && KeysOk(env, ids, s.keys) && IndexesOk(env, ids, es) && Wf(coin, es)
    requires es[k].Fund? && Counted(env, ids, coin, s.keys, es[k].op)
    ensures es[k].op in Seen(env, s, es, from, upto, met)
  {
    hide KeysOk, IndexesOk, Wf, Run, LabelsInRange;
    var m := Run(env, s, es, from, k);
    RunSound(env, ids, Flat(|s.keys.wallets|, from), s, es, from, k, met);
    CountedIsWatched(env, ids, coin, m.keys, es[k].op);
    FundsItsCoin(coin, es, k);
    SeenGrows(env, s, es, from, k + 1, upto, met);
  }

  // The state of a second pass over es[p0..p]: r known from the first, met met again.
  ghost predicate Again(es: seq<Event>, r: set<OutPoint>, p0: nat, p: nat, met: set<OutPoint>)
  {
    p0 <= p <= |es| && met <= Funded(es, p) && met * Funded(es, p0) == {} && r * Funded(es, p) - Funded(es, p0) <= met
  }

  lemma BlockMeetsAgain(w: World, sc: Scope, sys: Sys, q: nat, r: set<OutPoint>, p0: nat, met: set<OutPoint>) returns (met1: set<OutPoint>)
    requires CanScan(sys) && |sys.chain| >= 1
    requires var es, t := All(w.env, sys.chain), MinHeight(sys.scan.keys.wallets);
             Pos(w.env, sys.chain, t + 1) <= q <= |es|
             && Inv(w, sc, sys, Single(q, r) + Single(Pos(w.env, sys.chain, t), met)) && Again(es, r, p0, Pos(w.env, sys.chain, t), met)
    ensures var es, t := All(w.env, sys.chain), MinHeight(sys.scan.keys.wallets);
            var p, p1 := Pos(w.env, sys.chain, t), Pos(w.env, sys.chain, t + 1);
            AfterBlock(w, sys, Single(q, r) + Single(p, met)) == Single(q, r) + Single(p1, met1) && Again(es, r, p0, p1, met1)
  {
    hide IsChain, KeysOk, RowsAgree, IndexesOk, CompleteUpTo, Overlay, AllOwned, All, Pos, MinHeight, LabelsInRange, Marked, Wf, Placed, Described;
    var es, t := All(w.env, sys.chain), MinHeight(sys.scan.keys.wallets);
    var p, p1, s := Pos(w.env, sys.chain, t), Pos(w.env, sys.chain, t + 1), sys.scan.(updated := {});
    var marks := Single(q, r) + Single(p, met);
    PosOrder(w.env, sys.chain, t, t + 1);
    met1 := Seen(w.env, s, es, p, p1, met);
    SecondPass(w.env, s, es, p, p1, q, r, met);
    SeenAbove(w.env, w.coin, s, es, p, p1, met);
    SeenIsFunded(w.env, s, es, p, p1, met);
    FundedGrows(es, p, p1);
    FundedGrows(es, p0, p);
    forall o | o in r * Funded(es, p1) - Funded(es, p0) ensures o in met1 {
      if o in Funded(es, p) {
        SeenGrows(w.env, s, es, p, p, p1, met);
        SeenNothing(w.env, s, es, p, met);
      } else {
        var k :| 0 <= k < p1 && es[k].Fund? && es[k].op == o;
        assert k >= p;
        assert Mark(q, o) in marks && o in Known(marks);
        SeenAgain(w.env, w.ids, w.coin, s, es, p, p1, met, k);
      }
    }
  }

  lemma {:induction false} SeenIsFunded(env: Env, s: Scan, es: seq<Event>, from: nat, upto: nat, r: set<OutPoint>)
    requires from <= upto <= |es| && LabelsInRange(s.keys) && r <= Funded(es, from)
    ensures Seen(env, s, es, from, upto, r) <= Funded(es, upto)
    decreases upto
  {
    hide Recognised, Run, LabelsInRange, Funded;
    if from < upto {
      SeenIsFunded(env, s, es, from, upto - 1, r);
      FundedGrows(es, upto - 1, upto);
      FundedHere(es, upto - 1);
    }
  }

  // The second pass up to where the first had come.
  lemma {:induction false} BlocksMeetAgain(w: World, sc: Scope, sys: Sys, top: nat, r: set<OutPoint>, upto: nat) returns (met: set<OutPoint>)
    requires |sys.chain| >= 1 && LabelsInRange(sys.scan.keys) && |sys.scan.keys.wallets| >= 1
    requires Inv(w, sc, sys, Single(Pos(w.env, sys.chain, top), r))
    requires MinHeight(sys.scan.keys.wallets) <= upto <= top < |sys.chain|
    ensures var from := MinHeight(sys.scan.keys.wallets);
            var after := sys.(scan := ScanBlocks(w.env, sys.scan, sys.chain, from, upto));
            var es, p0, p := All(w.env, sys.chain), Pos(w.env, sys.chain, from), Pos(w.env, sys.chain, upto);
            && Inv(w, sc, after, Single(Pos(w.env, sys.chain, top), r) + Single(p, met)) && Again(es, r, p0, p, met)
            && |after.scan.keys.wallets| >= 1 && MinHeight(after.scan.keys.wallets) == upto
    decreases upto
  {
    hide Inv, ProcessBlock, LabelsInRange, MinHeight, All, Pos, AfterBlock, Again, Single;
    var from := MinHeight(sys.scan.keys.wallets);
    var es, q := All(w.env, sys.chain), Pos(w.env, sys.chain, top);
    if from < upto {
      met := BlocksMeetAgain(w, sc, sys, top, r, upto - 1);
      var mid := sys.(scan := ScanBlocks(w.env, sys.scan, sys.chain, from, upto - 1));
      assert CanScan(mid);
      var marks := Single(q, r) + Single(Pos(w.env, sys.chain, upto - 1), met);
      PosOrder(w.env, sys.chain, upto, top);
      BlockKeepsInv(w, sc, mid, marks);
      met := BlockMeetsAgain(w, sc, mid, q, r, Pos(w.env, sys.chain, from), met);
      InvBasics(w, sc, ScanOne(w.env, mid), AfterBlock(w, mid, marks));
    } else {
      met := {};
      NothingMet(es, r, Pos(w.env, sys.chain, from), q);
    }
  }

  lemma NothingMet(es: seq<Event>, r: set<OutPoint>, p: nat, q: nat)
    requires p <= |es|
    ensures Again(es, r, p, p, {}) && Single(q, r) + Single(p, {}) == Single(q, r)
  {
  }

  // Beyond it there is one pass.
  lemma {:induction false} BlocksPastTop(w: World, sc: Scope, sys: Sys, top: nat, r: set<OutPoint>, upto: nat) returns (marks: set<Mark>)
    requires |sys.chain| >= 1 && LabelsInRange(sys.scan.keys) && |sys.scan.keys.wallets| >= 1
    requires Inv(w, sc, sys, Single(Pos(w.env, sys.chain, top), r)) && MinHeight(sys.scan.keys.wallets) <= top <= upto < |sys.chain|
    ensures var after := sys.(scan := ScanBlocks(w.env, sys.scan, sys.chain, MinHeight(sys.scan.keys.wallets), upto));
            Inv(w, sc, after, marks) && OnePass(w, after, marks) && |after.scan.keys.wallets| >= 1 && MinHeight(after.scan.keys.wallets) == upto
    decreases upto
  {
    hide Inv, ProcessBlock, LabelsInRange, MinHeight, All, Pos, AfterBlock, Again, ScanBlocks, OnePass;
    var from := MinHeight(sys.scan.keys.wallets);
    if upto == top {
      var met := BlocksMeetAgain(w, sc, sys, top, r, top);
      marks := Single(Pos(w.env, sys.chain, top), r) + Single(Pos(w.env, sys.chain, top), met);
      OneReach(w, sys.(scan := ScanBlocks(w.env, sys.scan, sys.chain, from, top)), marks, top);
    } else {
      marks := BlocksPastTop(w, sc, sys, top, r, upto - 1);
      var mid := sys.(scan := ScanBlocks(w.env, sys.scan, sys.chain, from, upto - 1));
      InvBasics(w, sc, mid, marks);
      assert CanScan(mid);
      assert ScanBlocks(w.env, sys.scan, sys.chain, from, upto) == ScanOne(w.env, mid).scan by { NextBlock(w, sys, from, upto); }
      BlockKeepsInv(w, sc, mid, marks);
      BlockKeepsOnePass(w, sc, mid, marks);
      marks := AfterBlock(w, mid, marks);
      InvBasics(w, sc, ScanOne(w.env, mid), marks);
    }
  }

  lemma OneReach(w: World, sys: Sys, marks: set<Mark>, t: nat)
    requires |sys.chain| >= 1 && |sys.scan.keys.wallets| >= 1 && MinHeight(sys.scan.keys.wallets) == t
    requires forall m :: m in marks ==> m.reach == Pos(w.env, sys.chain, t)
    ensures OnePass(w, sys, marks)
  {
  }

  // An output known before, created where the second pass has been and spent where it has not but the
  // first had, above height h.
  ghost predicate MetAgain(w: World, chain: seq<Hash>, top: nat, r: set<OutPoint>, from: nat, upto: nat, h: nat, o: OutPoint)
    requires |chain| >= 1
  {
    var es := All(w.env, chain);
    o in r && o in Funded(es, Pos(w.env, chain, upto)) && o !in Funded(es, Pos(w.env, chain, from))
    && o !in SpentOps(es, Pos(w.env, chain, upto)) && o in SpentOps(es, Pos(w.env, chain, top)) && o in SpentOps(es, |es|) && SpendHeight(es, o) > h
  }

  lemma NoneMetPastTop(w: World, chain: seq<Hash>, top: nat, r: set<OutPoint>, from: nat, upto: nat, h: nat, o: OutPoint)
    requires |chain| >= 1 && top <= upto
    ensures !MetAgain(w, chain, top, r, from, upto, h, o)
  {
    hide All, Pos;
    PosOrder(w.env, chain, top, upto);
    SpentOpsUpTo(All(w.env, chain), Pos(w.env, chain, top), Pos(w.env, chain, upto));
  }

  // From a state whose passes all stand at top, the second pass, begun above height from, has come to
  // upto.
  lemma RefusedMidway(w: World, sc: Scope, sys: Sys, top: nat, r: set<OutPoint>, upto: nat, h: nat)
    requires |sys.chain| >= 1 && LabelsInRange(sys.scan.keys) && |sys.scan.keys.wallets| >= 1
    requires Inv(w, sc, sys, Single(Pos(w.env, sys.chain, top), r)) && top < |sys.chain|
    requires MinHeight(sys.scan.keys.wallets) <= upto < |sys.chain| && MinHeight(sys.scan.keys.wallets) <= top
    ensures var from := MinHeight(sys.scan.keys.wallets);
            var mid := sys.(scan := ScanBlocks(w.env, sys.scan, sys.chain, from, upto));
            RollbackAllowed(mid.scan.ledger, h) <==> forall o :: !MetAgain(w, sys.chain, top, r, from, upto, h, o)
  {
    hide Inv, ScanBlocks, LabelsInRange, MinHeight, All, Pos, Funded, SpentOps, RollbackAllowed, Single, SpendHeight, OnePass, CaughtUp;
    var from := MinHeight(sys.scan.keys.wallets);
    var mid := sys.(scan := ScanBlocks(w.env, sys.scan, sys.chain, from, upto));
    if upto <= top {
      var met := BlocksMeetAgain(w, sc, sys, top, r, upto);
      var es, p, q := All(w.env, sys.chain), Pos(w.env, sys.chain, upto), Pos(w.env, sys.chain, top);
      var marks := Single(q, r) + Single(p, met);
      RefusedIff(w, sc, mid, marks, h);
      forall o ensures RollbackProof.InBoth(es, marks, h, o) <==> MetAgain(w, sys.chain, top, r, from, upto, h, o) {
        PosOrder(w.env, sys.chain, upto, top);
        TwoPassesBoth(es, q, r, Pos(w.env, sys.chain, from), p, met, h, o);
      }
    } else {
      var marks := BlocksPastTop(w, sc, sys, top, r, upto);
      RefusedIff(w, sc, mid, marks, h);
      forall o ensures !MetAgain(w, sys.chain, top, r, from, upto, h, o) {
        NoneMetPastTop(w, sys.chain, top, r, from, upto, h, o);
      }
    }
  }

  lemma TwoPassesBoth(es: seq<Event>, q: nat, r: set<OutPoint>, p0: nat, p: nat, met: set<OutPoint>, h: nat, o: OutPoint)
    requires Again(es, r, p0, p, met) && p <= q <= |es| && Within(es, Single(q, r) + Single(p, met))
    ensures RollbackProof.InBoth(es, Single(q, r) + Single(p, met), h, o)
            <==> o in r && o in Funded(es, p) && o !in Funded(es, p0) && o !in SpentOps(es, p) && o in SpentOps(es, q)
                 && o in SpentOps(es, |es|) && SpendHeight(es, o) > h
  {
    hide Funded, SpentOps, SpendHeight;
    var marks := Single(q, r) + Single(p, met);
    SpentOpsUpTo(es, p, q);
    if RollbackProof.InBoth(es, marks, h, o) {
      var m :| m in marks && m.op == o && o !in SpentOps(es, m.reach);
      var m2 :| m2 in marks && m2.op == o && o in SpentOps(es, m2.reach);
      assert m == Mark(p, o) && m2 == Mark(q, o);
      assert o in met && o in r && o !in met * Funded(es, p0);
    }
    if o in r && o in Funded(es, p) && o !in Funded(es, p0) && o !in SpentOps(es, p) && o in SpentOps(es, q) {
      assert o in r * Funded(es, p) - Funded(es, p0);
      assert Mark(q, o) in marks && Mark(p, o) in marks;
    }
  }

  lemma SpentOpsUpTo(es: seq<Event>, p: nat, q: nat)
    requires p <= q <= |es|
    ensures SpentOps(es, p) <= SpentOps(es, q)
  {
  }

  // Wallets are added to a synced index, the header round of the new process brings the chain from its
  // old tip to a longer one, and the second pass, begun above height from, has come to upto. A rollback
  // to h is refused if and only if an output known before was created in between, and spent above upto
  // but not above the old tip, above h.
  lemma RefusedWhileRescanning(w: World, sc: Scope, sys: Sys, marks: set<Mark>, births: seq<nat>, longer: seq<Hash>, upto: nat, h: nat)
    requires Inv(w, sc, sys, marks) && CaughtUp(sys) && |sys.scan.keys.wallets| <= |births| <= |w.ids|
    requires GoodChain(w, longer) && |sys.chain| <= |longer| && longer[..|sys.chain|] == sys.chain
    requires var again := Restart(w.env, w.ids[..|births|], births, sys);
             again.chain == sys.chain && LabelsInRange(again.scan.keys) && |again.scan.keys.wallets| >= 1
             && MinHeight(again.scan.keys.wallets) <= upto < |longer|
    ensures |longer| >= 1
    ensures var again := Restart(w.env, w.ids[..|births|], births, sys);
            var from, top := MinHeight(again.scan.keys.wallets), |sys.chain| - 1;
            var mid := ScanBlocks(w.env, again.scan, longer, from, upto);
            RollbackAllowed(mid.ledger, h) <==> forall o :: !MetAgain(w, longer, top, Known(marks), from, upto, h, o)
  {
    hide Inv, Restart, ScanBlocks, LabelsInRange, MinHeight, Meaning, All, Pos, Funded, SpentOps, ScopeAfter, MoreScope, Wf, Owned, RollbackAllowed, Single, SpendHeight, Known,
         OnePass, GoodChain, MetAgain;
    InvBasics(w, sc, sys, marks);
    RestartKeepsInv(w, sc, sys, marks, births);
    var again := Restart(w.env, w.ids[..|births|], births, sys);
    var sc0, from, top := ScopeAfter(w.env, w.ids, sys, sc, Reboot(births)), MinHeight(again.scan.keys.wallets), |sys.chain| - 1;
    CaughtUpIsOneScan(w, sc, sys, marks);
    var r, start := Known(marks), Sys(longer, again.scan);
    ExtendKeepsInv(w, sc0, again, marks, longer);
    assert longer[..top + 1] == sys.chain[..top + 1];
    SharedPosition(w.env, sys.chain, longer, top, top);
    PosOrder(w.env, sys.chain, top, top);
    if from <= top {
      RefusedMidway(w, sc0, start, top, r, upto, h);
    } else {
      NotBegun(w, sc0, again, marks);
      NoPass(w, start);
      var m := ScanBlocksKeepInv(w, sc0, start, marks, upto);
      RefusedIff(w, sc0, start.(scan := ScanBlocks(w.env, again.scan, longer, from, upto)), m, h);
      forall o ensures !MetAgain(w, longer, top, r, from, upto, h, o) {
        NoneMetPastTop(w, longer, top, r, from, upto, h, o);
      }
    }
  }

  lemma NotBegun(w: World, sc: Scope, sys: Sys, marks: set<Mark>)
    requires Inv(w, sc, sys, marks) && MinHeight(sys.scan.keys.wallets) >= |sys.chain|
    ensures marks == {}
  {
  }

  // The header round of a process that starts there ends in an error exactly then.
  lemma TickRefusedIff(w: World, sc: Scope, sys: Sys, marks: set<Mark>, peer: Peer, h: nat)
    requires Inv(w, sc, sys, marks) && GoodAction(w, HeaderTick(peer)) && |sys.chain| >= 1 && |peer.chain| >= 1
    requires SyncSpec(w.env, peer, sys.chain).1 == Reorg(h)
    ensures TickHeaders(w.env, peer, sys).None? <==> exists o :: RollbackProof.InBoth(All(w.env, sys.chain), marks, h, o)
  {
    hide Inv, ProcessReorg, RollbackAllowed, GoodChain, RollbackProof.InBoth, All;
    InvBasics(w, sc, sys, marks);
    GoodNonEmpty(w, peer.chain);
    SyncOutcomes(w.env, w.genesis, peer, sys.chain);
    RefusedIff(w, sc, sys, marks, h);
  }
}
