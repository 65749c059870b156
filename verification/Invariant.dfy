// The invariant of the state machine and its preservation by every step.
module Invariant {
  import opened Base
  import opened Tables
  import opened Oracle
  import opened Passes
  import opened Derivation
  import opened Scan
  import opened Chain
  import opened System
  import RollbackProof

  // The fixed surroundings of a run: uninterpreted functions, genesis, the value and script of each
  // outpoint, and the wallets in the order in which they come to be configured. The first of them are
  // configured at any one time.
  datatype World = World(env: Env, genesis: Hash, coin: OutPoint -> Utxo, ids: seq<Hash>)

  // For each configured wallet the indexes it began with and the height above which it is followed.
  datatype Scope = Scope(start: seq<Wallet>, low: seq<nat>)

  ghost predicate GoodChain(w: World, chain: seq<Hash>) {
    ValidChain(w.env, w.genesis, w.coin, chain) && IndexesOk(w.env, w.ids, All(w.env, chain))
  }

  lemma GoodNonEmpty(w: World, chain: seq<Hash>)
    requires GoodChain(w, chain)
    ensures |chain| >= 1 && IsChain(w.env, w.genesis, chain)
  {
  }

  // The events from which on the wallets are followed.
  function Lows(env: Env, chain: seq<Hash>, low: seq<nat>): (r: seq<nat>)
    requires |chain| >= 1
    ensures |r| == |low| && forall i :: 0 <= i < |r| ==> r[i] == Pos(env, chain, low[i])
  {
    seq(|low|, i requires 0 <= i < |low| => Pos(env, chain, low[i]))
  }

  // Indexes start at or below where the wallets are now.
  ghost predicate StartBelow(start: seq<Wallet>, wallets: seq<Wallet>) {
    |start| == |wallets| && forall i :: 0 <= i < |start| ==>
      start[i].nextReceive <= wallets[i].nextReceive && start[i].nextChange <= wallets[i].nextChange
  }

  ghost predicate KeysGood(w: World, sc: Scope, s: Scan) {
    && |s.keys.wallets| >= 1 && LabelsInRange(s.keys) && KeysOk(w.env, w.ids, s.keys)
    && RowsAgree(s.keys.wallets, s.rows) && StartBelow(sc.start, s.keys.wallets) && |sc.low| == |s.keys.wallets|
  }

  // The tables are those of the passes in marks, the present one standing at p; only outputs to
  // followed wallets are known, and every known output is counted in its account's next index.
  ghost predicate LedgerGood(w: World, lows: seq<nat>, es: seq<Event>, p: nat, l: Ledger, marks: set<Mark>, ks: Keys) {
    && Described(w.coin, es, p, marks) && l == Overlay(w.coin, es, marks)
    && Known(marks) <= AllOwned(w.env, w.ids, lows, es, 0, |es|)
    && forall o :: o in Known(marks) ==> Counted(w.env, w.ids, w.coin, ks, o)
  }

  // If the chain respects the gap up to event k, nothing before k was missed and no account is behind.
  ghost predicate CompleteAt(w: World, start: seq<Wallet>, lows: seq<nat>, es: seq<Event>, k: nat, r: set<OutPoint>, ks: Keys)
    requires k <= |es| && |start| == |lows|
  {
    GapOk(w.env, w.ids, start, lows, es, k) ==>
      AllOwned(w.env, w.ids, lows, es, 0, k) <= r && Ahead(w.env, w.ids, start, lows, es, k, ks)
  }

  ghost predicate CompleteUpTo(w: World, sc: Scope, chain: seq<Hash>, t: nat, r: set<OutPoint>, ks: Keys)
    requires |chain| >= 1 && |sc.start| == |sc.low|
  {
    forall u: nat :: u <= t ==>
      CompleteAt(w, sc.start, Lows(w.env, chain, sc.low), All(w.env, chain), Pos(w.env, chain, u), r, ks)
  }

  // Scanning stands at the lowest wallet height t. Above the tip it has not begun.
  ghost predicate Placed(sc: Scope, sys: Sys, t: nat, marks: set<Mark>) {
    FollowedAt(sc.low, t) && (t < |sys.chain| || (marks == {} && forall i :: 0 <= i < |sc.low| ==> sc.low[i] == t))
  }

  ghost predicate Inv(w: World, sc: Scope, sys: Sys, marks: set<Mark>) {
    && GoodChain(w, sys.chain) && KeysGood(w, sc, sys.scan)
    && var t := MinHeight(sys.scan.keys.wallets);
    && Placed(sc, sys, t, marks)
    && LedgerGood(w, Lows(w.env, sys.chain, sc.low), All(w.env, sys.chain), Pos(w.env, sys.chain, t), sys.scan.ledger, marks, sys.scan.keys)
    && CompleteUpTo(w, sc, sys.chain, t, Known(marks), sys.scan.keys)
  }

  // ---- Completeness carries over ----

  // Up to event p, the same wallets are followed from the same events on.
  ghost predicate SameUpTo(a: seq<nat>, b: seq<nat>, p: nat) {
    && |a| <= |b|
    && (forall i :: 0 <= i < |a| ==> a[i] == b[i] || (a[i] >= p && b[i] >= p))
    && (forall i :: |a| <= i < |b| ==> b[i] >= p)
  }

  lemma PaysSame(w: World, lows: seq<nat>, lows1: seq<nat>, es: seq<Event>, fs: seq<Event>, p: nat, k: nat)
    requires k < p <= |es| && p <= |fs| && es[..p] == fs[..p] && SameUpTo(lows, lows1, p)
    ensures Pays(w.env, w.ids, lows, es, k) == Pays(w.env, w.ids, lows1, fs, k) && es[k] == fs[k]
  {
    assert es[k] == es[..p][k] == fs[k];
  }

  lemma {:induction false} UsedSame(w: World, start: seq<Wallet>, start1: seq<Wallet>, lows: seq<nat>, lows1: seq<nat>, es: seq<Event>, fs: seq<Event>, p: nat, k: nat, i: nat, a: Account)
    requires k <= p <= |es| && p <= |fs| && es[..p] == fs[..p] && SameUpTo(lows, lows1, p)
    requires |start| == |lows| && |start1| == |lows1| && i < |start| && start[i] == start1[i]
    ensures Used(w.env, w.ids, start, lows, es, k, i, a) == Used(w.env, w.ids, start1, lows1, fs, k, i, a)
    decreases k
  {
    if k > lows[i] {
      assert es[k - 1] == es[..p][k - 1] == fs[k - 1];
      UsedSame(w, start, start1, lows, lows1, es, fs, p, k - 1, i, a);
    }
  }

  lemma WithinGapSame(w: World, start: seq<Wallet>, start1: seq<Wallet>, lows: seq<nat>, lows1: seq<nat>, es: seq<Event>, fs: seq<Event>, p: nat, k: nat)
    requires k < p <= |es| && p <= |fs| && es[..p] == fs[..p] && SameUpTo(lows, lows1, p)
    requires |start| == |lows| && |start1| == |lows1| && forall i :: 0 <= i < |start| ==> start[i] == start1[i]
    ensures WithinGap(w.env, w.ids, start, lows, es, k) == WithinGap(w.env, w.ids, start1, lows1, fs, k)
  {
    PaysSame(w, lows, lows1, es, fs, p, k);
    if Pays(w.env, w.ids, lows, es, k) {
      var x := Owner(w.env, w.ids, es[k].utxo.sh).value;
      UsedSame(w, start, start1, lows, lows1, es, fs, p, k, x.walletIdx, x.account);
    }
  }

  lemma AllOwnedSame(w: World, lows: seq<nat>, lows1: seq<nat>, es: seq<Event>, fs: seq<Event>, p: nat, from: nat, k: nat)
    requires k <= p <= |es| && p <= |fs| && es[..p] == fs[..p] && SameUpTo(lows, lows1, p)
    ensures AllOwned(w.env, w.ids, lows, es, from, k) == AllOwned(w.env, w.ids, lows1, fs, from, k)
  {
    hide Pays, SameUpTo;
    forall j | 0 <= j < k ensures Pays(w.env, w.ids, lows, es, j) == Pays(w.env, w.ids, lows1, fs, j) && es[j] == fs[j] {
      PaysSame(w, lows, lows1, es, fs, p, j);
    }
  }

  // Next indexes only rise, and wallets that are new have what they began with.
  ghost predicate IndexesUp(a: Keys, b: Keys) {
    |a.wallets| <= |b.wallets| && forall i :: 0 <= i < |a.wallets| ==>
      a.wallets[i].nextReceive <= b.wallets[i].nextReceive && a.wallets[i].nextChange <= b.wallets[i].nextChange
  }

  lemma CompleteSame(w: World, start: seq<Wallet>, start1: seq<Wallet>, lows: seq<nat>, lows1: seq<nat>, es: seq<Event>, fs: seq<Event>, p: nat, k: nat,
                     r: set<OutPoint>, r1: set<OutPoint>, ks: Keys, ks1: Keys)
    requires k <= p <= |es| && p <= |fs| && es[..p] == fs[..p] && SameUpTo(lows, lows1, p)
    requires |start| == |lows| && |start1| == |lows1| && forall i :: 0 <= i < |start| ==> start[i] == start1[i]
    requires CompleteAt(w, start, lows, es, k, r, ks) && IndexesUp(ks, ks1) && StartBelow(start1, ks1.wallets)
    requires r * AllOwned(w.env, w.ids, lows, es, 0, k) <= r1
    ensures CompleteAt(w, start1, lows1, fs, k, r1, ks1)
  {
    hide WithinGap, AllOwned;
    if GapOk(w.env, w.ids, start1, lows1, fs, k) {
      forall j | 0 <= j < k ensures WithinGap(w.env, w.ids, start, lows, es, j) {
        WithinGapSame(w, start, start1, lows, lows1, es, fs, p, j);
      }
      AllOwnedSame(w, lows, lows1, es, fs, p, 0, k);
      forall i: nat, a | i < |start1| ensures Used(w.env, w.ids, start1, lows1, fs, k, i, a) <= ks1.wallets[i].Next(a) {
        if i < |start| {
          UsedSame(w, start, start1, lows, lows1, es, fs, p, k, i, a);
          assert Used(w.env, w.ids, start, lows, es, k, i, a) <= ks.wallets[i].Next(a);
        }
      }
    }
  }

  // Where no wallet is followed yet, nothing is missing.
  lemma CompleteAtStart(w: World, start: seq<Wallet>, lows: seq<nat>, es: seq<Event>, k: nat, r: set<OutPoint>, ks: Keys)
    requires k <= |es| && StartBelow(start, ks.wallets) && |start| == |lows| && forall i :: 0 <= i < |lows| ==> lows[i] >= k
    ensures CompleteAt(w, start, lows, es, k, r, ks)
  {
    assert AllOwned(w.env, w.ids, lows, es, 0, k) == {};
  }

  lemma AllOwnedIsFunded(w: World, lows: seq<nat>, es: seq<Event>, from: nat, k: nat)
    requires k <= |es|
    ensures AllOwned(w.env, w.ids, lows, es, from, k) <= Funded(es, k)
  {
  }

  lemma AllOwnedSplit(w: World, lows: seq<nat>, es: seq<Event>, a: nat, b: nat, c: nat)
    requires a <= b <= c <= |es|
    ensures AllOwned(w.env, w.ids, lows, es, a, c) == AllOwned(w.env, w.ids, lows, es, a, b) + AllOwned(w.env, w.ids, lows, es, b, c)
  {
    hide Pays;
    forall o | o in AllOwned(w.env, w.ids, lows, es, a, b) + AllOwned(w.env, w.ids, lows, es, b, c) ensures o in AllOwned(w.env, w.ids, lows, es, a, c) {
      if o in AllOwned(w.env, w.ids, lows, es, a, b) {
        var k :| a <= k < b && Pays(w.env, w.ids, lows, es, k) && es[k].op == o;
        assert a <= k < c;
      } else {
        var k :| b <= k < c && Pays(w.env, w.ids, lows, es, k) && es[k].op == o;
        assert a <= k < c;
      }
    }
  }

  // Following from lower down only adds outputs.
  lemma AllOwnedMore(w: World, lows: seq<nat>, lows1: seq<nat>, es: seq<Event>, k: nat)
    requires k <= |es| && |lows| <= |lows1| && forall i :: 0 <= i < |lows| ==> lows1[i] <= lows[i]
    ensures AllOwned(w.env, w.ids, lows, es, 0, k) <= AllOwned(w.env, w.ids, lows1, es, 0, k)
  {
    forall o | o in AllOwned(w.env, w.ids, lows, es, 0, k) ensures o in AllOwned(w.env, w.ids, lows1, es, 0, k) {
      var j :| 0 <= j < k && Pays(w.env, w.ids, lows, es, j) && es[j].op == o;
      assert Pays(w.env, w.ids, lows1, es, j);
    }
  }

  lemma CountedUp(w: World, ks: Keys, ks1: Keys, r: set<OutPoint>)
    requires IndexesUp(ks, ks1) && forall o :: o in r ==> Counted(w.env, w.ids, w.coin, ks, o)
    ensures forall o :: o in r ==> Counted(w.env, w.ids, w.coin, ks1, o)
  {
  }

  // ---- Valid prefixes ----

  lemma WfPrefix(coin: OutPoint -> Utxo, es: seq<Event>, p: nat)
    requires Wf(coin, es) && p <= |es|
    ensures Wf(coin, es[..p])
  {
    var fs := es[..p];
    forall k | 0 <= k < |fs| ensures fs[k] == es[k] {
    }
    forall o | o in Funded(fs, |fs|) ensures o in Funded(es, |es|) {
    }
  }

  lemma IndexesOkPrefix(w: World, es: seq<Event>, p: nat)
    requires IndexesOk(w.env, w.ids, es) && p <= |es|
    ensures IndexesOk(w.env, w.ids, es[..p])
  {
    forall k | 0 <= k < p ensures es[..p][k] == es[k] {
    }
  }

  lemma GoodPrefix(w: World, chain: seq<Hash>, n: nat)
    requires GoodChain(w, chain) && 1 <= n <= |chain|
    ensures GoodChain(w, chain[..n])
    ensures All(w.env, chain[..n]) == All(w.env, chain)[..Pos(w.env, chain, n - 1)]
  {
    hide Wf, IndexesOk;
    var pre := chain[..n];
    assert pre[..n] == chain[..n];
    SharedPosition(w.env, chain, pre, n - 1, n - 1);
    var p := Pos(w.env, chain, n - 1);
    assert All(w.env, pre)[..p] == All(w.env, pre);
    WfPrefix(w.coin, All(w.env, chain), p);
    IndexesOkPrefix(w, All(w.env, chain), p);
  }

  // ---- Scanning that has not begun ----

  lemma UnstartedInv(w: World, sc: Scope, chain: seq<Hash>, s: Scan)
    requires GoodChain(w, chain) && KeysGood(w, sc, s) && s.ledger == EMPTY
    requires forall i :: 0 <= i < |sc.low| ==> sc.low[i] == MinHeight(s.keys.wallets)
    ensures Inv(w, sc, Sys(chain, s), {})
  {
    hide Wf, IsChain, IndexesOk, KeysOk, RowsAgree, LabelsInRange, CompleteAt, Overlay, MinHeight, All, Pos;
    GoodNonEmpty(w, chain);
    var es, t := All(w.env, chain), MinHeight(s.keys.wallets);
    var lows := Lows(w.env, chain, sc.low);
    PosOrder(w.env, chain, t, t);
    OverlayOfNothing(w.coin, es);
    forall u: nat | u <= t ensures CompleteAt(w, sc.start, lows, es, Pos(w.env, chain, u), {}, s.keys) {
      PosOrder(w.env, chain, u, t);
      CompleteAtStart(w, sc.start, lows, es, Pos(w.env, chain, u), {}, s.keys);
    }
    assert Known({}) == {};
  }

  // ---- Header step: the stored chain grows ----

  lemma LowsShared(env: Env, a: seq<Hash>, b: seq<Hash>, f: nat, low: seq<nat>, t: nat)
    requires t <= f < |a| && f < |b| && a[..f + 1] == b[..f + 1] && FollowedAt(low, t)
    ensures Lows(env, a, low) == Lows(env, b, low)
  {
    forall i | 0 <= i < |low| ensures Pos(env, a, low[i]) == Pos(env, b, low[i]) {
      SharedPosition(env, a, b, f, low[i]);
    }
  }

  lemma CompleteUpToShared(w: World, sc: Scope, a: seq<Hash>, b: seq<Hash>, f: nat, t: nat, r: set<OutPoint>, ks: Keys)
    requires |sc.start| == |sc.low| && StartBelow(sc.start, ks.wallets) && FollowedAt(sc.low, t)
    requires t <= f < |a| && f < |b| && a[..f + 1] == b[..f + 1]
    requires CompleteUpTo(w, sc, a, t, r, ks)
    ensures CompleteUpTo(w, sc, b, t, r, ks)
  {
    hide CompleteAt, Pos, All;
    LowsShared(w.env, a, b, f, sc.low, t);
    var lows := Lows(w.env, a, sc.low);
    forall u: nat | u <= t ensures CompleteAt(w, sc.start, lows, All(w.env, b), Pos(w.env, b, u), r, ks) {
      SharedPosition(w.env, a, b, f, u);
      var k := Pos(w.env, a, u);
      assert CompleteAt(w, sc.start, lows, All(w.env, a), k, r, ks);
      CompleteSame(w, sc.start, sc.start, lows, lows, All(w.env, a), All(w.env, b), k, k, r, r, ks, ks);
    }
  }

  lemma LedgerGoodShared(w: World, lows: seq<nat>, lows1: seq<nat>, es: seq<Event>, fs: seq<Event>, n: nat, p: nat, l: Ledger, marks: set<Mark>, ks: Keys)
    requires Described(w.coin, es, p, marks) && l == Overlay(w.coin, es, marks) && Wf(w.coin, fs)
    requires p <= n <= |es| && n <= |fs| && es[..n] == fs[..n] && SameUpTo(lows, lows1, n)
    requires Known(marks) <= AllOwned(w.env, w.ids, lows, es, 0, n)
    requires forall o :: o in Known(marks) ==> Counted(w.env, w.ids, w.coin, ks, o)
    requires forall m :: m in marks ==> m.reach <= n
    ensures LedgerGood(w, lows1, fs, p, l, marks, ks)
  {
    hide Wf, Overlay, Described, Counted, AllOwned, Known;
    OverlayShared(w.coin, es, fs, n, p, marks);
    AllOwnedSame(w, lows, lows1, es, fs, n, 0, n);
    AllOwnedSplit(w, lows1, fs, 0, n, |fs|);
  }

  // Following a peer to the end of a chain that extends the stored one changes no table.
  lemma ExtendKeepsInv(w: World, sc: Scope, sys: Sys, marks: set<Mark>, longer: seq<Hash>)
    requires Inv(w, sc, sys, marks) && GoodChain(w, longer)
    requires |sys.chain| <= |longer| && longer[..|sys.chain|] == sys.chain
    ensures Inv(w, sc, Sys(longer, sys.scan), marks)
  {
    hide Wf, IsChain, IndexesOk, KeysOk, RowsAgree, LabelsInRange, CompleteUpTo, Overlay, MinHeight, All, Pos, Counted, Known;
    GoodNonEmpty(w, sys.chain);
    var tip := |sys.chain| - 1;
    var t := MinHeight(sys.scan.keys.wallets);
    var es, fs := All(w.env, sys.chain), All(w.env, longer);
    if t <= tip {
      assert sys.chain[..tip + 1] == longer[..tip + 1];
      SharedPosition(w.env, sys.chain, longer, tip, tip);
      SharedPosition(w.env, sys.chain, longer, tip, t);
      PosOrder(w.env, sys.chain, t, tip);
      LowsShared(w.env, sys.chain, longer, tip, sc.low, t);
      var lows := Lows(w.env, sys.chain, sc.low);
      LedgerGoodShared(w, lows, lows, es, fs, |es|, Pos(w.env, longer, t), sys.scan.ledger, marks, sys.scan.keys);
      CompleteUpToShared(w, sc, sys.chain, longer, tip, t, Known(marks), sys.scan.keys);
    } else {
      OverlayOfNothing(w.coin, es);
      UnstartedInv(w, sc, longer, sys.scan);
    }
  }

  // ---- Reorg step ----

  lemma StoredCovers(w: World, chain: seq<Hash>, header: map<Hash, nat>)
    requires |chain| >= 1 && Stored(header, chain)
    ensures RollbackProof.HeadersCover(All(w.env, chain), header)
  {
    forall k | 0 <= k < |All(w.env, chain)|
      ensures All(w.env, chain)[k].row.blockHash in header && header[All(w.env, chain)[k].row.blockHash] == All(w.env, chain)[k].height
    {
      ChainEventsFacts(w.env, chain, |chain| - 1, k);
    }
  }

  lemma HeightCuts(w: World, chain: seq<Hash>, h: nat)
    requires h < |chain|
    ensures RollbackProof.CutAt(All(w.env, chain), h, Pos(w.env, chain, h))
  {
    PosOrder(w.env, chain, h, h);
    forall k | 0 <= k < |All(w.env, chain)| ensures k < Pos(w.env, chain, h) <==> All(w.env, chain)[k].height <= h {
      EventsCut(w.env, chain, h, |chain| - 1, k);
    }
  }

  // A wallet is followed from the fork on when that is lower.
  function LoweredLow(low: seq<nat>, h: nat): (r: seq<nat>)
    ensures |r| == |low| && forall i :: 0 <= i < |r| ==> r[i] == Min(low[i], h)
  {
    seq(|low|, i requires 0 <= i < |low| => Min(low[i], h))
  }

  lemma LowerKeepsKeys(w: World, sc: Scope, s: Scan, l: Ledger, h: nat)
    requires KeysGood(w, sc, s)
    ensures KeysGood(w, Scope(sc.start, LoweredLow(sc.low, h)), Scan(l, s.keys.(wallets := Lowered(s.keys.wallets, h)), LoweredRows(s.rows, h), s.updated))
    ensures IndexesUp(s.keys, s.keys.(wallets := Lowered(s.keys.wallets, h)))
  {
    HeightsDoNotMatter(w.env, w.ids, s.keys, Lowered(s.keys.wallets, h));
    assert Ids(Lowered(s.keys.wallets, h)) == Ids(s.keys.wallets);
  }

  lemma LoweredMin(wallets: seq<Wallet>, h: nat)
    requires |wallets| >= 1
    ensures MinHeight(Lowered(wallets, h)) == Min(h, MinHeight(wallets))
  {
    hide MinHeight;
    var l := Lowered(wallets, h);
    var i :| 0 <= i < |wallets| && wallets[i].height == MinHeight(wallets);
    var j :| 0 <= j < |l| && l[j].height == MinHeight(l);
    assert MinHeight(l) <= l[i].height && MinHeight(wallets) <= wallets[j].height;
  }

  // The lowered follow heights, seen as events of the shortened chain.
  lemma LoweredLows(w: World, chain: seq<Hash>, low: seq<nat>, h: nat)
    requires h < |chain|
    ensures SameUpTo(Lows(w.env, chain, low), Lows(w.env, chain[..h + 1], LoweredLow(low, h)), Pos(w.env, chain, h))
  {
    hide Pos;
    var pre := chain[..h + 1];
    assert pre[..h + 1] == chain[..h + 1];
    forall i | 0 <= i < |low|
      ensures var a, b := Pos(w.env, chain, low[i]), Pos(w.env, pre, Min(low[i], h));
              a == b || (a >= Pos(w.env, chain, h) && b >= Pos(w.env, chain, h))
    {
      SharedPosition(w.env, chain, pre, h, Min(low[i], h));
      if low[i] > h { PosOrder(w.env, chain, h, low[i]); }
    }
  }

  // What is known after the cut is what was known and created at or below it.
  lemma KnownCut(es: seq<Event>, cut: nat, marks: set<Mark>)
    requires cut <= |es|
    ensures Known(RollbackProof.Cut(es, cut, marks)) == Known(marks) * Funded(es, cut)
    ensures forall m :: m in RollbackProof.Cut(es, cut, marks) ==> m.reach <= cut
  {
    hide Funded;
    forall o | o in Known(marks) * Funded(es, cut) ensures o in Known(RollbackProof.Cut(es, cut, marks)) {
      var m :| m in marks && m.op == o;
      assert Mark(Min(m.reach, cut), m.op) in RollbackProof.Cut(es, cut, marks);
    }
  }

  lemma OwnedBelowCut(w: World, lows: seq<nat>, es: seq<Event>, cut: nat)
    requires Wf(w.coin, es) && cut <= |es|
    ensures AllOwned(w.env, w.ids, lows, es, 0, |es|) * Funded(es, cut) <= AllOwned(w.env, w.ids, lows, es, 0, cut)
  {
    forall o | o in AllOwned(w.env, w.ids, lows, es, 0, |es|) * Funded(es, cut) ensures o in AllOwned(w.env, w.ids, lows, es, 0, cut) {
      var k :| 0 <= k < |es| && Pays(w.env, w.ids, lows, es, k) && es[k].op == o;
      var j :| 0 <= j < cut && es[j].Fund? && es[j].op == o;
      assert j == k;
    }
  }

  // A rollback to a stored height leaves the tables of the passes cut there, over the shortened chain.
  lemma ReorgLedger(w: World, chain: seq<Hash>, header: map<Hash, nat>, low: seq<nat>, h: nat, t: nat, l: Ledger, marks: set<Mark>, ks: Keys)
    requires GoodChain(w, chain) && Stored(header, chain) && h < |chain| && |low| == |ks.wallets|
    requires LedgerGood(w, Lows(w.env, chain, low), All(w.env, chain), Pos(w.env, chain, t), l, marks, ks)
    ensures var pre := chain[..h + 1];
            LedgerGood(w, Lows(w.env, pre, LoweredLow(low, h)), All(w.env, pre), Pos(w.env, pre, Min(t, h)), Rollback(l, header, h),
                       RollbackProof.Cut(All(w.env, chain), Pos(w.env, chain, h), marks), ks)
  {
    hide Wf, IsChain, IndexesOk, Stored, Overlay, Rollback, All, Pos, Described, Counted, AllOwned, Known, Funded,
         RollbackProof.HeadersCover, RollbackProof.CutAt, RollbackProof.Cut;
    var pre, es, cut := chain[..h + 1], All(w.env, chain), Pos(w.env, chain, h);
    var fs, p, m := All(w.env, pre), Pos(w.env, chain, t), Min(t, h);
    assert pre[..h + 1] == chain[..h + 1];
    StoredCovers(w, chain, header);
    HeightCuts(w, chain, h);
    DescribedWithin(w.coin, es, p, marks);
    RollbackProof.RollbackCuts(w.coin, es, header, h, cut, p, marks);
    var left := RollbackProof.Cut(es, cut, marks);
    KnownCut(es, cut, marks);
    if t <= h { PosOrder(w.env, chain, t, h); } else { PosOrder(w.env, chain, h, t); }
    SharedPosition(w.env, chain, pre, h, h);
    SharedPosition(w.env, chain, pre, h, m);
    GoodPrefix(w, chain, h + 1);
    LoweredLows(w, chain, low, h);
    OwnedBelowCut(w, Lows(w.env, chain, low), es, cut);
    LedgerGoodShared(w, Lows(w.env, chain, low), Lows(w.env, pre, LoweredLow(low, h)), es, fs, cut, Pos(w.env, pre, m),
                     Rollback(l, header, h), left, ks);
  }

  lemma ReorgComplete(w: World, sc: Scope, chain: seq<Hash>, h: nat, t: nat, marks: set<Mark>, ks: Keys, ks1: Keys)
    requires h < |chain| && |sc.start| == |sc.low| && StartBelow(sc.start, ks1.wallets) && IndexesUp(ks, ks1)
    requires CompleteUpTo(w, sc, chain, t, Known(marks), ks)
    ensures CompleteUpTo(w, Scope(sc.start, LoweredLow(sc.low, h)), chain[..h + 1], Min(t, h),
                         Known(RollbackProof.Cut(All(w.env, chain), Pos(w.env, chain, h), marks)), ks1)
  {
    hide Pos, All, Known, Funded, AllOwned, CompleteAt, RollbackProof.Cut;
    var pre, es, cut := chain[..h + 1], All(w.env, chain), Pos(w.env, chain, h);
    assert pre[..h + 1] == chain[..h + 1];
    var lows, lows1 := Lows(w.env, chain, sc.low), Lows(w.env, pre, LoweredLow(sc.low, h));
    LoweredLows(w, chain, sc.low, h);
    KnownCut(es, cut, marks);
    SharedPosition(w.env, chain, pre, h, h);
    forall u: nat | u <= Min(t, h)
      ensures CompleteAt(w, sc.start, lows1, All(w.env, pre), Pos(w.env, pre, u), Known(RollbackProof.Cut(es, cut, marks)), ks1)
    {
      SharedPosition(w.env, chain, pre, h, u);
      PosOrder(w.env, chain, u, h);
      var k := Pos(w.env, chain, u);
      assert CompleteAt(w, sc.start, lows, es, k, Known(marks), ks);
      AllOwnedIsFunded(w, lows, es, 0, k);
      FundedGrows(es, k, cut);
      CompleteSame(w, sc.start, sc.start, lows, lows1, es, All(w.env, pre), cut, k, Known(marks), Known(RollbackProof.Cut(es, cut, marks)), ks, ks1);
    }
  }

  // An accepted rollback keeps the invariant, wherever it cuts the passes and however low it goes.
  lemma ReorgKeepsInv(w: World, sc: Scope, sys: Sys, marks: set<Mark>, header: map<Hash, nat>, h: nat)
    requires Inv(w, sc, sys, marks) && Stored(header, sys.chain) && h < |sys.chain|
    ensures Inv(w, Scope(sc.start, LoweredLow(sc.low, h)), ProcessReorg(sys, header, h),
                RollbackProof.Cut(All(w.env, sys.chain), Pos(w.env, sys.chain, h), marks))
  {
    hide Wf, IsChain, KeysOk, RowsAgree, LabelsInRange, IndexesOk, CompleteUpTo, LedgerGood, Rollback, Stored, Pos, All, MinHeight, Lowered, Known, RollbackProof.Cut;
    var t := MinHeight(sys.scan.keys.wallets);
    var after := ProcessReorg(sys, header, h);
    LowerKeepsKeys(w, sc, sys.scan, after.scan.ledger, h);
    LoweredMin(sys.scan.keys.wallets, h);
    GoodPrefix(w, sys.chain, h + 1);
    ReorgLedger(w, sys.chain, header, sc.low, h, t, sys.scan.ledger, marks, sys.scan.keys);
    LedgerGoodUp(w, Lows(w.env, after.chain, LoweredLow(sc.low, h)), All(w.env, after.chain), Pos(w.env, after.chain, Min(t, h)), after.scan.ledger,
                 RollbackProof.Cut(All(w.env, sys.chain), Pos(w.env, sys.chain, h), marks), sys.scan.keys, after.scan.keys);
    ReorgComplete(w, sc, sys.chain, h, t, marks, sys.scan.keys, after.scan.keys);
  }

  lemma LedgerGoodUp(w: World, lows: seq<nat>, es: seq<Event>, p: nat, l: Ledger, marks: set<Mark>, ks: Keys, ks1: Keys)
    requires LedgerGood(w, lows, es, p, l, marks, ks) && IndexesUp(ks, ks1)
    ensures LedgerGood(w, lows, es, p, l, marks, ks1)
  {
    hide Described, Overlay, AllOwned;
    CountedUp(w, ks, ks1, Known(marks));
  }

  // ---- Block step ----

  lemma {:induction false} RunShift(env: Env, s: Scan, bs: seq<Event>, es: seq<Event>, p: nat, k: nat)
    requires LabelsInRange(s.keys) && k <= |bs| && p + |bs| <= |es| && es[p..p + |bs|] == bs
    ensures Run(env, s, bs, 0, k) == Run(env, s, es, p, p + k)
    decreases k
  {
    hide Step;
    if k > 0 {
      RunShift(env, s, bs, es, p, k - 1);
      assert bs[k - 1] == es[p..p + |bs|][k - 1] == es[p + k - 1];
    }
  }

  lemma RunKeysGood(w: World, sc: Scope, es: seq<Event>, p: nat, p1: nat, s: Scan)
    requires KeysGood(w, sc, s) && IndexesOk(w.env, w.ids, es) && p <= p1 <= |es|
    ensures KeysGood(w, sc, Run(w.env, s, es, p, p1)) && NeverLower(s.keys, Run(w.env, s, es, p, p1).keys)
    ensures IndexesUp(s.keys, Run(w.env, s, es, p, p1).keys)
  {
    hide KeysOk, RowsAgree, IndexesOk, Run;
    RunSound(w.env, w.ids, Flat(|s.keys.wallets|, p), s, es, p, p1, {});
    RunKeepsRows(w.env, w.ids, s, es, p, p1);
  }

  // The run over one block's events, inside the events of the chain.
  lemma RunLedgerGood(w: World, sc: Scope, lows: seq<nat>, es: seq<Event>, p: nat, p1: nat, s: Scan, marks: set<Mark>)
    requires KeysGood(w, sc, s) && IndexesOk(w.env, w.ids, es) && p <= p1 <= |es| && |lows| == |sc.low| && FollowedAt(lows, p)
    requires LedgerGood(w, lows, es, p, s.ledger, marks, s.keys)
    ensures LedgerGood(w, lows, es, p1, Run(w.env, s, es, p, p1).ledger, Marked(w.env, s, es, p, p1, marks), Run(w.env, s, es, p, p1).keys)
    ensures Known(Marked(w.env, s, es, p, p1, marks)) == Seen(w.env, s, es, p, p1, Known(marks)) >= Known(marks)
  {
    hide Wf, KeysOk, RowsAgree, IndexesOk, Overlay, AllOwned, Seen, Run, Marked, Known, Counted, FollowedAt;
    RunKeepsOverlay(w.env, w.coin, s, es, p, p1, marks);
    KnownMarked(w.env, s, es, p, p1, marks);
    RunSound(w.env, w.ids, lows, s, es, p, p1, Known(marks));
    RunCounts(w.env, w.ids, w.coin, lows, s, es, p, p1, Known(marks));
    AllOwnedSplit(w, lows, es, 0, p, |es|);
    AllOwnedSplit(w, lows, es, p, p1, |es|);
  }

  lemma RunComplete(w: World, sc: Scope, lows: seq<nat>, es: seq<Event>, p: nat, p1: nat, s: Scan, r: set<OutPoint>)
    requires KeysGood(w, sc, s) && IndexesOk(w.env, w.ids, es) && p <= p1 <= |es| && |lows| == |sc.low| && FollowedAt(lows, p)
    requires CompleteAt(w, sc.start, lows, es, p, r, s.keys)
    ensures CompleteAt(w, sc.start, lows, es, p1, Seen(w.env, s, es, p, p1, r), Run(w.env, s, es, p, p1).keys)
  {
    hide WithinGap, Step, KeysOk, RowsAgree, IndexesOk, Run, Seen, AllOwned, Ahead, FollowedAt;
    if GapOk(w.env, w.ids, sc.start, lows, es, p1) {
      assert GapOk(w.env, w.ids, sc.start, lows, es, p);
      GapComplete(w.env, w.ids, sc.start, lows, s, es, p, p1, r);
      AllOwnedSplit(w, lows, es, 0, p, p1);
    }
  }

  lemma RaiseKeepsKeys(w: World, sc: Scope, m: Scan, t: nat)
    requires KeysGood(w, sc, m)
    ensures KeysGood(w, sc, m.(keys := m.keys.(wallets := Raised(m.keys.wallets, t)), rows := RaisedRows(m.rows, m.keys.wallets, t, |m.keys.wallets|)))
    ensures IndexesUp(m.keys, m.keys.(wallets := Raised(m.keys.wallets, t)))
  {
    hide RowsAgree;
    HeightsDoNotMatter(w.env, w.ids, m.keys, Raised(m.keys.wallets, t));
    IdsDistinct(w.env, w.ids);
    PrefixDistinctIds(w.ids, |m.keys.wallets|);
    RaiseKeepsRows(m.rows, m.keys.wallets, t);
  }

  lemma RaisedMin(before: seq<Wallet>, after: seq<Wallet>)
    requires |before| == |after| >= 1 && forall i :: 0 <= i < |before| ==> after[i].height == before[i].height
    ensures MinHeight(Raised(after, MinHeight(before) + 1)) == MinHeight(before) + 1
  {
    hide MinHeight;
    var t := MinHeight(before) + 1;
    var r := Raised(after, t);
    var i :| 0 <= i < |before| && before[i].height == MinHeight(before);
    var m := MinHeight(r);
    assert m <= r[i].height == t;
    var j :| 0 <= j < |r| && m == r[j].height;
    assert t <= r[j].height;
  }

  // The passes after one more block.
  ghost function AfterBlock(w: World, sys: Sys, marks: set<Mark>): set<Mark>
    requires CanScan(sys)
  {
    var t := MinHeight(sys.scan.keys.wallets);
    PosOrder(w.env, sys.chain, t, t + 1);
    Marked(w.env, sys.scan.(updated := {}), All(w.env, sys.chain), Pos(w.env, sys.chain, t), Pos(w.env, sys.chain, t + 1), marks)
  }

  lemma BlockRun(w: World, chain: seq<Hash>, s: Scan, t: nat)
    requires t + 1 < |chain| && LabelsInRange(s.keys)
    ensures var es := All(w.env, chain);
            var p, p1 := Pos(w.env, chain, t), Pos(w.env, chain, t + 1);
            var bs := BlockEvents(w.env, chain[t + 1], t + 1);
            p <= p1 && Run(w.env, s, bs, 0, |bs|) == Run(w.env, s, es, p, p1)
  {
    hide Step, Run, BlockEvents, All, ChainEvents;
    BlockInChain(w.env, chain, t + 1);
    RunShift(w.env, s, BlockEvents(w.env, chain[t + 1], t + 1), All(w.env, chain),
             Pos(w.env, chain, t), |BlockEvents(w.env, chain[t + 1], t + 1)|);
  }

  // What processBlock leaves, in terms of the run m over its events.
  ghost predicate BlockResult(m: Scan, t: nat, after: Scan) {
    after == m.(keys := m.keys.(wallets := Raised(m.keys.wallets, t)), rows := RaisedRows(m.rows, m.keys.wallets, t, |m.keys.wallets|))
  }

  lemma BlockKeys(w: World, sc: Scope, es: seq<Event>, p: nat, p1: nat, s: Scan, m: Scan, after: Scan)
    requires KeysGood(w, sc, s) && IndexesOk(w.env, w.ids, es) && p <= p1 <= |es|
    requires m == Run(w.env, s, es, p, p1) && BlockResult(m, MinHeight(s.keys.wallets) + 1, after)
    ensures KeysGood(w, sc, after) && IndexesUp(s.keys, m.keys) && IndexesUp(m.keys, after.keys)
    ensures |after.keys.wallets| == |s.keys.wallets| && MinHeight(after.keys.wallets) == MinHeight(s.keys.wallets) + 1
    ensures forall i :: 0 <= i < |after.keys.wallets| ==> after.keys.wallets[i].height == Max(s.keys.wallets[i].height, MinHeight(s.keys.wallets) + 1)
  {
    hide Run, IndexesOk, KeysOk, RowsAgree, StartBelow, MinHeight, RaisedRows;
    RunKeysGood(w, sc, es, p, p1, s);
    RaiseKeepsKeys(w, sc, m, MinHeight(s.keys.wallets) + 1);
    RaisedMin(s.keys.wallets, m.keys.wallets);
  }

  lemma LowsBelow(w: World, chain: seq<Hash>, low: seq<nat>, t: nat)
    requires |chain| >= 1 && FollowedAt(low, t)
    ensures FollowedAt(Lows(w.env, chain, low), Pos(w.env, chain, t))
  {
    hide Pos;
    forall i | 0 <= i < |low| ensures Pos(w.env, chain, low[i]) <= Pos(w.env, chain, t) {
      PosOrder(w.env, chain, low[i], t);
    }
  }

  // Processing the next block keeps the invariant, one height further.
  lemma BlockKeepsInv(w: World, sc: Scope, sys: Sys, marks: set<Mark>)
    requires CanScan(sys)
    requires Inv(w, sc, sys, marks)
    ensures Inv(w, sc, ScanOne(w.env, sys), AfterBlock(w, sys, marks))
    ensures MinHeight(ScanOne(w.env, sys).scan.keys.wallets) == MinHeight(sys.scan.keys.wallets) + 1
  {
    hide ValidChain, KeysOk, RowsAgree, StartBelow, IndexesOk, Run, Marked, LedgerGood, CompleteUpTo, Pos, All, BlockResult, MinHeight, ProcessBlock, LabelsInRange, Known;
    var chain, t := sys.chain, MinHeight(sys.scan.keys.wallets);
    var es, p, p1 := All(w.env, chain), Pos(w.env, chain, t), Pos(w.env, chain, t + 1);
    var s := sys.scan.(updated := {});
    var after := ScanOne(w.env, sys).scan;
    BlockRun(w, chain, s, t);
    var m := Run(w.env, s, es, p, p1);
    assert BlockResult(m, t + 1, after) by { BlockResultHolds(w, sys, m); }
    BlockKeys(w, sc, es, p, p1, s, m, after);
    LowsBelow(w, chain, sc.low, t);
    BlockLedger(w, sc, Lows(w.env, chain, sc.low), es, p, p1, s, m, after, t + 1, marks);
    BlockComplete(w, sc, chain, t, s, m, Known(marks), Known(AfterBlock(w, sys, marks)), after.keys);
  }

  lemma BlockResultHolds(w: World, sys: Sys, m: Scan)
    requires CanScan(sys)
    requires var t := MinHeight(sys.scan.keys.wallets) + 1;
             var bs := BlockEvents(w.env, sys.chain[t], t);
             m == Run(w.env, sys.scan.(updated := {}), bs, 0, |bs|)
    ensures BlockResult(m, MinHeight(sys.scan.keys.wallets) + 1, ScanOne(w.env, sys).scan)
  {
    hide Run, BlockEvents;
  }

  lemma BlockLedger(w: World, sc: Scope, lows: seq<nat>, es: seq<Event>, p: nat, p1: nat, s: Scan, m: Scan, after: Scan, t: nat, marks: set<Mark>)
    requires KeysGood(w, sc, s) && IndexesOk(w.env, w.ids, es) && p <= p1 <= |es| && |lows| == |sc.low| && FollowedAt(lows, p)
    requires LedgerGood(w, lows, es, p, s.ledger, marks, s.keys)
    requires m == Run(w.env, s, es, p, p1) && BlockResult(m, t, after) && IndexesUp(m.keys, after.keys)
    ensures LedgerGood(w, lows, es, p1, after.ledger, Marked(w.env, s, es, p, p1, marks), after.keys)
    ensures Known(Marked(w.env, s, es, p, p1, marks)) == Seen(w.env, s, es, p, p1, Known(marks)) >= Known(marks)
  {
    hide Run, Seen, Marked, LedgerGood, IndexesOk, KeysOk, RowsAgree, Known;
    RunLedgerGood(w, sc, lows, es, p, p1, s, marks);
    LedgerGoodUp(w, lows, es, p1, m.ledger, Marked(w.env, s, es, p, p1, marks), m.keys, after.keys);
  }

  lemma BlockComplete(w: World, sc: Scope, chain: seq<Hash>, t: nat, s: Scan, m: Scan, r: set<OutPoint>, r1: set<OutPoint>, ks: Keys)
    requires t + 1 < |chain| && GoodChain(w, chain) && KeysGood(w, sc, s) && FollowedAt(sc.low, t)
    requires CompleteUpTo(w, sc, chain, t, r, s.keys)
    requires Pos(w.env, chain, t) <= Pos(w.env, chain, t + 1)
    requires m == Run(w.env, s, All(w.env, chain), Pos(w.env, chain, t), Pos(w.env, chain, t + 1))
    requires r1 == Seen(w.env, s, All(w.env, chain), Pos(w.env, chain, t), Pos(w.env, chain, t + 1), r)
    requires IndexesUp(s.keys, m.keys) && IndexesUp(m.keys, ks) && r <= r1 && StartBelow(sc.start, ks.wallets)
    ensures CompleteUpTo(w, sc, chain, t + 1, r1, ks)
  {
    hide Wf, ValidChain, KeysOk, RowsAgree, IndexesOk, Run, Seen, All, Pos, CompleteAt, AllOwned;
    var es, lows := All(w.env, chain), Lows(w.env, chain, sc.low);
    LowsBelow(w, chain, sc.low, t);
    forall u: nat | u <= t + 1 ensures CompleteAt(w, sc.start, lows, es, Pos(w.env, chain, u), r1, ks) {
      var k := Pos(w.env, chain, u);
      if u <= t {
        assert CompleteAt(w, sc.start, lows, es, k, r, s.keys);
        CompleteSame(w, sc.start, sc.start, lows, lows, es, es, k, k, r, r1, s.keys, ks);
      } else {
        RunComplete(w, sc, lows, es, Pos(w.env, chain, t), k, s, r);
        CompleteSame(w, sc.start, sc.start, lows, lows, es, es, k, k, r1, r1, m.keys, ks);
      }
    }
  }

  // ---- Restart step: wallets added to the configuration ----

  // The wallets from index n on as setupWallet makes them when they have no row.
  function NewWallets(ids: seq<Hash>, births: seq<nat>, n: nat): (r: seq<Wallet>)
    requires n <= |births| <= |ids|
    ensures |r| == |births| - n && forall i :: 0 <= i < |r| ==> r[i] == Wallet(ids[n + i], births[n + i], 0, GAP, 0, GAP)
  {
    seq(|births| - n, i requires 0 <= i < |births| - n => Wallet(ids[n + i], births[n + i], 0, GAP, 0, GAP))
  }

  // Every wallet is followed at least from where the next pass begins.
  function MoreLow(low: seq<nat>, n: nat, t: nat): (r: seq<nat>)
    requires |low| <= n
    ensures |r| == n && forall i :: 0 <= i < n ==> r[i] == if i < |low| then Min(low[i], t) else t
  {
    seq(n, i requires 0 <= i < n => if i < |low| then Min(low[i], t) else t)
  }

  function MoreScope(sc: Scope, wallets: seq<Wallet>): Scope
    requires |sc.start| == |sc.low| <= |wallets| && |wallets| >= 1
  {
    Scope(sc.start + wallets[|sc.start|..], MoreLow(sc.low, |wallets|, MinHeight(wallets)))
  }

  lemma MoreLowsSame(w: World, chain: seq<Hash>, low: seq<nat>, n: nat, t: nat)
    requires |chain| >= 1 && |low| <= n
    ensures SameUpTo(Lows(w.env, chain, low), Lows(w.env, chain, MoreLow(low, n, t)), Pos(w.env, chain, t))
    ensures forall i :: 0 <= i < |low| ==> Lows(w.env, chain, MoreLow(low, n, t))[i] <= Lows(w.env, chain, low)[i]
  {
    hide Pos;
    forall i | 0 <= i < |low| ensures low[i] > t ==> Pos(w.env, chain, low[i]) >= Pos(w.env, chain, t) {
      if low[i] > t { PosOrder(w.env, chain, t, low[i]); }
    }
  }

  lemma MoreComplete(w: World, sc: Scope, chain: seq<Hash>, ks: Keys, ks1: Keys, t: nat, t1: nat, r: set<OutPoint>)
    requires |chain| >= 1 && t1 <= t && |sc.start| == |sc.low| == |ks.wallets| <= |ks1.wallets|
    requires IndexesUp(ks, ks1) && StartBelow(sc.start + ks1.wallets[|sc.start|..], ks1.wallets)
    requires CompleteUpTo(w, sc, chain, t, r, ks)
    ensures CompleteUpTo(w, Scope(sc.start + ks1.wallets[|sc.start|..], MoreLow(sc.low, |ks1.wallets|, t1)), chain, t1, r, ks1)
  {
    hide CompleteAt, Pos, All, AllOwned;
    var es, start1, low1 := All(w.env, chain), sc.start + ks1.wallets[|sc.start|..], MoreLow(sc.low, |ks1.wallets|, t1);
    var lows, lows1 := Lows(w.env, chain, sc.low), Lows(w.env, chain, low1);
    MoreLowsSame(w, chain, sc.low, |ks1.wallets|, t1);
    forall u: nat | u <= t1 ensures CompleteAt(w, start1, lows1, es, Pos(w.env, chain, u), r, ks1) {
      PosOrder(w.env, chain, u, t1);
      var k := Pos(w.env, chain, u);
      assert CompleteAt(w, sc.start, lows, es, k, r, ks);
      CompleteSame(w, sc.start, start1, lows, lows1, es, es, Pos(w.env, chain, t1), k, r, r, ks, ks1);
    }
  }

  lemma MoreLedger(w: World, lows: seq<nat>, lows1: seq<nat>, es: seq<Event>, p: nat, p1: nat, l: Ledger, marks: set<Mark>, ks: Keys, ks1: Keys)
    requires LedgerGood(w, lows, es, p, l, marks, ks) && p1 <= p && IndexesUp(ks, ks1)
    requires |lows| <= |lows1| && forall i :: 0 <= i < |lows| ==> lows1[i] <= lows[i]
    ensures LedgerGood(w, lows1, es, p1, l, marks, ks1)
  {
    hide Wf, Overlay, AllOwned, Counted, Known, Funded;
    AllOwnedMore(w, lows, lows1, es, |es|);
    CountedUp(w, ks, ks1, Known(marks));
  }

  lemma MorePlaced(sc: Scope, sys: Sys, t: nat, marks: set<Mark>, n: nat, t1: nat, after: Scan, start1: seq<Wallet>)
    requires Placed(sc, sys, t, marks) && t1 <= t && |sc.low| <= n
    ensures Placed(Scope(start1, MoreLow(sc.low, n, t1)), Sys(sys.chain, after), t1, marks)
  {
  }

  lemma IndexesUpPrefix(a: Keys, b: Keys)
    requires |a.wallets| <= |b.wallets| && b.wallets[..|a.wallets|] == a.wallets
    ensures IndexesUp(a, b)
  {
    forall i | 0 <= i < |a.wallets| ensures b.wallets[i] == a.wallets[i] {
      assert b.wallets[i] == b.wallets[..|a.wallets|][i];
    }
  }

  // More wallets, and a pass that begins at or below where the present one stands.
  lemma MoreKeepInv(w: World, sc: Scope, sys: Sys, marks: set<Mark>, after: Scan)
    requires Inv(w, sc, sys, marks) && after.ledger == sys.scan.ledger && |sys.scan.keys.wallets| <= |after.keys.wallets|
    requires after.keys.wallets[..|sys.scan.keys.wallets|] == sys.scan.keys.wallets
    requires KeysGood(w, MoreScope(sc, after.keys.wallets), after) && MinHeight(after.keys.wallets) <= MinHeight(sys.scan.keys.wallets)
    ensures Inv(w, MoreScope(sc, after.keys.wallets), Sys(sys.chain, after), marks)
  {
    hide GoodChain, KeysGood, CompleteUpTo, LedgerGood, Pos, All, MinHeight, Known, Placed, IndexesUp, StartBelow;
    GoodNonEmpty(w, sys.chain);
    StartOf(w, sc, sys.scan);
    StartOf(w, MoreScope(sc, after.keys.wallets), after);
    var ws := after.keys.wallets;
    var t, t1 := MinHeight(sys.scan.keys.wallets), MinHeight(ws);
    var chain, sc1 := sys.chain, MoreScope(sc, ws);
    IndexesUpPrefix(sys.scan.keys, after.keys);
    PosOrder(w.env, chain, t1, t);
    MoreLowsSame(w, chain, sc.low, |ws|, t1);
    MorePlaced(sc, sys, t, marks, |ws|, t1, after, sc1.start);
    MoreLedger(w, Lows(w.env, chain, sc.low), Lows(w.env, chain, sc1.low), All(w.env, chain), Pos(w.env, chain, t), Pos(w.env, chain, t1),
               after.ledger, marks, sys.scan.keys, after.keys);
    MoreComplete(w, sc, chain, sys.scan.keys, after.keys, t, t1, Known(marks));
  }

  lemma StartOf(w: World, sc: Scope, s: Scan)
    requires KeysGood(w, sc, s)
    ensures |s.keys.wallets| >= 1 && |sc.start| == |sc.low| == |s.keys.wallets| && StartBelow(sc.start, s.keys.wallets)
  {
    hide RowsAgree, KeysOk, LabelsInRange;
  }
}
