// The indexer as a state machine: its steps - blocks, rollbacks, restarts - as functions on the state,
// and what they do to wallet heights and rows.
module System {
  import opened Base
  import opened Tables
  import opened Oracle
  import opened Derivation
  import opened Scan
  import opened Chain

  // The stored header chain, and everything the scanner keeps.
  datatype Sys = Sys(chain: seq<Hash>, scan: Scan)

  // ---- Wallet heights ----

  function MinHeight(wallets: seq<Wallet>): (m: nat)
    requires |wallets| >= 1
    ensures forall i :: 0 <= i < |wallets| ==> m <= wallets[i].height
    ensures exists i :: 0 <= i < |wallets| && m == wallets[i].height
  {
    var last := wallets[|wallets| - 1].height;
    if |wallets| == 1 then last else Min(MinHeight(wallets[..|wallets| - 1]), last)
  }

  function Raised(wallets: seq<Wallet>, t: nat): (r: seq<Wallet>)
    ensures |r| == |wallets|
    ensures forall i :: 0 <= i < |r| ==> r[i] == wallets[i].(height := Max(wallets[i].height, t))
  {
    seq(|wallets|, i requires 0 <= i < |wallets| => wallets[i].(height := Max(wallets[i].height, t)))
  }

  function RaisedRows(rows: map<Hash, WalletRow>, wallets: seq<Wallet>, t: nat, n: nat): map<Hash, WalletRow>
    requires n <= |wallets|
  {
    if n == 0 then rows
    else
      var before := RaisedRows(rows, wallets, t, n - 1);
      if wallets[n - 1].height >= t then before else StoreHeight(before, wallets[n - 1].hash, t)
  }

  function Lowered(wallets: seq<Wallet>, h: nat): (r: seq<Wallet>)
    ensures |r| == |wallets|
    ensures forall i :: 0 <= i < |r| ==> r[i] == wallets[i].(height := Min(h, wallets[i].height))
  {
    seq(|wallets|, i requires 0 <= i < |wallets| => wallets[i].(height := Min(h, wallets[i].height)))
  }

  // UPDATE wallet SET height = h WHERE height > h
  function LoweredRows(rows: map<Hash, WalletRow>, h: nat): map<Hash, WalletRow> {
    map x | x in rows :: if rows[x].height > h then rows[x].(height := h) else rows[x]
  }

  // ---- The steps ----

  // processBlock
  function ProcessBlock(env: Env, s: Scan, bh: Hash, t: nat): (r: Scan)
    requires LabelsInRange(s.keys)
    ensures LabelsInRange(r.keys)
  {
    var es := BlockEvents(env, bh, t);
    var m := Run(env, s.(updated := {}), es, 0, |es|);
    m.(keys := m.keys.(wallets := Raised(m.keys.wallets, t)), rows := RaisedRows(m.rows, m.keys.wallets, t, |m.keys.wallets|))
  }

  // syncWallets, having processed the blocks above from up to and including upto
  function ScanBlocks(env: Env, s: Scan, chain: seq<Hash>, from: nat, upto: nat): (r: Scan)
    requires from <= upto < |chain| && LabelsInRange(s.keys)
    ensures LabelsInRange(r.keys)
    decreases upto
  {
    if from == upto then s else ProcessBlock(env, ScanBlocks(env, s, chain, from, upto - 1), chain[upto], upto)
  }

  // There is a stored block above some wallet's height.
  predicate CanScan(sys: Sys) {
    |sys.chain| >= 1 && LabelsInRange(sys.scan.keys) && |sys.scan.keys.wallets| >= 1
    && MinHeight(sys.scan.keys.wallets) < |sys.chain| - 1
  }

  // One committed block of syncWallets: the one above the lowest wallet height.
  function ScanOne(env: Env, sys: Sys): (r: Sys)
    requires CanScan(sys)
    ensures r.chain == sys.chain
  {
    var t := MinHeight(sys.scan.keys.wallets) + 1;
    sys.(scan := ProcessBlock(env, sys.scan, sys.chain[t], t))
  }

  // syncWallets
  function SyncWallets(env: Env, sys: Sys): Sys
    requires LabelsInRange(sys.scan.keys) && |sys.chain| >= 1
  {
    var ws := sys.scan.keys.wallets;
    if |ws| == 0 || MinHeight(ws) >= |sys.chain| - 1 then sys
    else sys.(scan := ScanBlocks(env, sys.scan, sys.chain, MinHeight(ws), |sys.chain| - 1))
  }

  // processReorg: deleteAllSinceBlock, reloadCaches, and the heights in memory.
  function ProcessReorg(sys: Sys, header: map<Hash, nat>, h: nat): Sys
    requires h < |sys.chain|
  {
    Sys(sys.chain[..h + 1],
        Scan(Rollback(sys.scan.ledger, header, h),
             sys.scan.keys.(wallets := Lowered(sys.scan.keys.wallets, h)),
             LoweredRows(sys.scan.rows, h), sys.scan.updated))
  }

  // setupWallet for one configured wallet: its row's indexes and height, or a new row.
  function SetupWallet(env: Env, ks: Keys, rows: map<Hash, WalletRow>, hash: Hash, birth: nat): (Keys, map<Hash, WalletRow>) {
    if hash in rows
    then (AddWallet(env, ks, hash, rows[hash].height, rows[hash].nextReceive, rows[hash].nextChange), rows)
    else (AddWallet(env, ks, hash, birth, 0, 0), rows[hash := WalletRow(birth, 0, 0)])
  }

  // New: all configured wallets over an empty map.
  function Setup(env: Env, ids: seq<Hash>, births: seq<nat>, rows: map<Hash, WalletRow>, n: nat): (Keys, map<Hash, WalletRow>)
    requires n <= |ids| == |births|
  {
    if n == 0 then (Keys([], map[]), rows)
    else
      var (ks, rs) := Setup(env, ids, births, rows, n - 1);
      SetupWallet(env, ks, rs, ids[n - 1], births[n - 1])
  }

  // A restart: keys rebuilt from the rows, utxoIndex reloaded from unspent_output.
  function Restart(env: Env, ids: seq<Hash>, births: seq<nat>, sys: Sys): Sys
    requires |ids| == |births|
  {
    var (ks, rows) := Setup(env, ids, births, sys.scan.rows, |ids|);
    Sys(sys.chain, Scan(sys.scan.ledger.(index := sys.scan.ledger.unspent), ks, rows, {}))
  }

  // ---- Facts about heights and rows ----

  ghost predicate DistinctIds(ids: seq<Hash>) {
    forall i, j :: 0 <= i < |ids| && 0 <= j < |ids| && ids[i] == ids[j] ==> i == j
  }

  // Memory and database agree on every wallet, and there is no row of any other.
  ghost predicate RowsAgree(wallets: seq<Wallet>, rows: map<Hash, WalletRow>) {
    && (forall i :: 0 <= i < |wallets| ==>
          wallets[i].hash in rows &&
          rows[wallets[i].hash] == WalletRow(wallets[i].height, wallets[i].nextReceive, wallets[i].nextChange))
    && (forall x :: x in rows ==> x in Ids(wallets))
  }

  lemma IdsDistinct(env: Env, ids: seq<Hash>)
    requires DistinctScripts(env, ids)
    ensures DistinctIds(ids)
  {
    forall i, j | 0 <= i < |ids| && 0 <= j < |ids| && ids[i] == ids[j] ensures i == j {
      assert Script(env, ids, Info(i, Receive, 0)) == Script(env, ids, Info(j, Receive, 0));
    }
  }

  lemma StepKeepsRows(env: Env, ids: seq<Hash>, s: Scan, es: seq<Event>, k: nat)
    requires k < |es| && LabelsInRange(s.keys) && KeysOk(env, ids, s.keys) && IndexesOk(env, ids, es)
    requires RowsAgree(s.keys.wallets, s.rows)
    ensures RowsAgree(Step(env, s, es[k]).keys.wallets, Step(env, s, es[k]).rows)
  {
    IdsDistinct(env, ids);
    PrefixDistinctIds(ids, |s.keys.wallets|);
    StepKeepsKeys(env, ids, s, es, k);
    if Recognised(s, es[k]) {
      var x := s.keys.watch[es[k].utxo.sh];
      WatchedIff(env, ids, s.keys, es[k].utxo.sh);
      var wl := s.keys.wallets[x.walletIdx];
      AdvanceKeepsRows(s.keys.wallets, s.rows, x);
      assert Step(env, s, es[k]).rows == StoreUpdate(s.keys, s.rows, x);
      StoreUpdateIs(s.keys, s.rows, x);
    }
  }

  lemma PrefixDistinctIds(ids: seq<Hash>, n: nat)
    requires DistinctIds(ids) && n <= |ids|
    ensures DistinctIds(ids[..n])
  {
  }

  lemma StoreUpdateIs(ks: Keys, rows: map<Hash, WalletRow>, x: Info)
    requires x.walletIdx < |ks.wallets| && x.idx < MAX_INDEX && RowsAgree(ks.wallets, rows)
    ensures var a := Advanced(ks.wallets[x.walletIdx], x.account, x.idx);
            StoreUpdate(ks, rows, x) == rows[a.hash := WalletRow(a.height, a.nextReceive, a.nextChange)]
  {
    var wl := ks.wallets[x.walletIdx];
    assert rows == rows[wl.hash := rows[wl.hash]];
  }

  lemma AdvanceKeepsRows(wallets: seq<Wallet>, rows: map<Hash, WalletRow>, x: Info)
    requires x.walletIdx < |wallets| && RowsAgree(wallets, rows) && DistinctIds(Ids(wallets))
    ensures var a := Advanced(wallets[x.walletIdx], x.account, x.idx);
            RowsAgree(wallets[x.walletIdx := a], rows[a.hash := WalletRow(a.height, a.nextReceive, a.nextChange)])
  {
    var a := Advanced(wallets[x.walletIdx], x.account, x.idx);
    var ids := Ids(wallets);
    assert Ids(wallets[x.walletIdx := a]) == ids;
    forall i | 0 <= i < |wallets| && i != x.walletIdx ensures wallets[i].hash != wallets[x.walletIdx].hash {
      assert ids[i] == wallets[i].hash && ids[x.walletIdx] == wallets[x.walletIdx].hash;
    }
    assert ids[x.walletIdx] == a.hash;
  }

  lemma {:induction false} RunKeepsRows(env: Env, ids: seq<Hash>, s: Scan, es: seq<Event>, from: nat, upto: nat)
    requires from <= upto <= |es| && LabelsInRange(s.keys) && KeysOk(env, ids, s.keys) && IndexesOk(env, ids, es)
    requires RowsAgree(s.keys.wallets, s.rows)
    ensures RowsAgree(Run(env, s, es, from, upto).keys.wallets, Run(env, s, es, from, upto).rows)
    decreases upto
  {
    hide KeysOk, IndexesOk, Step, RowsAgree;
    if from < upto {
      RunKeepsRows(env, ids, s, es, from, upto - 1);
      RunSound(env, ids, Flat(|s.keys.wallets|, from), s, es, from, upto - 1, {});
      StepKeepsRows(env, ids, Run(env, s, es, from, upto - 1), es, upto - 1);
    }
  }

  lemma {:induction false} RaisedRowsAt(rows: map<Hash, WalletRow>, wallets: seq<Wallet>, t: nat, n: nat, i: nat)
    requires n <= |wallets| && i < |wallets| && DistinctIds(Ids(wallets)) && RowsAgree(wallets, rows)
    ensures var r := RaisedRows(rows, wallets, t, n);
            wallets[i].hash in r && r[wallets[i].hash] == rows[wallets[i].hash].(height := if i < n then Max(wallets[i].height, t) else wallets[i].height)
  {
    if n > 0 {
      RaisedRowsAt(rows, wallets, t, n - 1, i);
      if wallets[n - 1].hash == wallets[i].hash {
        assert Ids(wallets)[n - 1] == Ids(wallets)[i];
      }
    }
  }

  lemma {:induction false} RaisedRowsKeys(rows: map<Hash, WalletRow>, wallets: seq<Wallet>, t: nat, n: nat)
    requires n <= |wallets|
    ensures RaisedRows(rows, wallets, t, n).Keys == rows.Keys
  {
    if n > 0 { RaisedRowsKeys(rows, wallets, t, n - 1); }
  }

  lemma RaiseKeepsRows(rows: map<Hash, WalletRow>, wallets: seq<Wallet>, t: nat)
    requires DistinctIds(Ids(wallets)) && RowsAgree(wallets, rows)
    ensures RowsAgree(Raised(wallets, t), RaisedRows(rows, wallets, t, |wallets|))
  {
    hide RaisedRows;
    RaisedRowsKeys(rows, wallets, t, |wallets|);
    assert Ids(Raised(wallets, t)) == Ids(wallets);
    forall i | 0 <= i < |wallets|
      ensures wallets[i].hash in RaisedRows(rows, wallets, t, |wallets|)
      ensures RaisedRows(rows, wallets, t, |wallets|)[wallets[i].hash] == WalletRow(Max(wallets[i].height, t), wallets[i].nextReceive, wallets[i].nextChange)
    {
      RaisedRowsAt(rows, wallets, t, |wallets|, i);
    }
  }

  // Only heights differ.
  ghost predicate SameButHeights(a: seq<Wallet>, b: seq<Wallet>) {
    |a| == |b| && forall i :: 0 <= i < |a| ==> b[i] == a[i].(height := b[i].height)
  }

  lemma HeightsDoNotMatter(env: Env, ids: seq<Hash>, ks: Keys, wallets: seq<Wallet>)
    requires KeysOk(env, ids, ks) && SameButHeights(ks.wallets, wallets)
    ensures KeysOk(env, ids, ks.(wallets := wallets))
  {
    var r := ks.(wallets := wallets);
    assert Ids(wallets) == Ids(ks.wallets);
    forall x ensures InWindow(r, x) <==> InWindow(ks, x) {
    }
    forall w: nat, a ensures FullAt(r, w, a) {
      assert FullAt(ks, w, a);
    }
  }
}
