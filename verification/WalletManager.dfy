// walletmanager.go: the indexer as an object over its repository. Every method is proved against
// the specification function of the step it performs.
module WalletManagerModule {
  import opened Base
  import opened Tables
  import opened Derivation
  import opened Scan
  import opened Chain
  import opened Blocks
  import opened Headers
  import opened System
  import opened Runs
  import opened Codec
  import opened Queries
  import opened RepositoryModule
  import Invariant
  import Merkle

  class WalletManager {
    const env: Env
    const genesis: Hash
    const sha: string -> Hash
    const rawHeader: Hash -> seq<byte>  // the 80 serialized bytes of a block's header
    const repo: Repository
    var bestHeader: nat
    var bestHeaderHash: Hash
    var wallets: seq<Wallet>
    var scriptPubkeys: map<Hash, Info>
    ghost var chain: seq<Hash>  // the stored headers, genesis first

    function TheKeys(): Keys
      reads this
    {
      Keys(wallets, scriptPubkeys)
    }

    function View(updated: set<Hash>): Scan
      reads this, repo
    {
      Scan(repo.View(), TheKeys(), repo.wallet, updated)
    }

    predicate Valid()
      reads this, repo
    {
      repo.Valid() && LabelsInRange(TheKeys())
    }

    ghost predicate HeadersOk()
      reads this, repo
    {
      IsChain(env, genesis, chain) && Stored(repo.header, chain)
    }

    ghost predicate AtTip()
      reads this, repo
    {
      HeadersOk() && bestHeader == |chain| - 1 && bestHeaderHash == chain[bestHeader]
    }

    // ---- Derivation ----

    // One half of refillWallet.
    method RefillAccountInPlace(w: nat, a: Account)
      requires w < |wallets|
      modifies this`wallets, this`scriptPubkeys
      ensures TheKeys() == RefillAccount(env, old(TheKeys()), w, a)
    {
      var wl := wallets[w];
      var offset := wl.Derived(a);
      var count := Missing(wl.Next(a), offset);
      if count != 0 {
        var i := 0;
        while i < count
          invariant i <= count
          invariant scriptPubkeys == AddScripts(env, wl.hash, w, a, offset, i, old(scriptPubkeys))
          modifies this`scriptPubkeys
        {
          scriptPubkeys := scriptPubkeys[env.derive(wl.hash, a, offset + i) := Info(w, a, offset + i)];
          i := i + 1;
        }
        wallets := wallets[w := wl.WithDerived(a, offset + count)];
      }
    }

    method RefillWallet(w: nat)
      requires w < |wallets|
      modifies this`wallets, this`scriptPubkeys
      ensures TheKeys() == Refill(env, old(TheKeys()), w)
    {
      RefillAccountInPlace(w, Receive);
      RefillAccountInPlace(w, Change);
    }

    method WalletUpdateIndexes(info: Info)
      requires info.walletIdx < |wallets|
      modifies this`wallets, repo`wallet
      ensures TheKeys() == UpdateIndexes(old(TheKeys()), info)
      ensures repo.wallet == StoreUpdate(old(TheKeys()), old(repo.wallet), info)
      ensures var was, next := old(wallets)[info.walletIdx], (info.idx + 1) % TWO_32;
              wallets == old(wallets)[info.walletIdx :=
                if info.account.Receive? && info.idx >= was.nextReceive then was.(nextReceive := next)
                else if info.account.Change? && info.idx >= was.nextChange then was.(nextChange := next)
                else was]
    {
      var wl := wallets[info.walletIdx];
      match info.account
      case Receive =>
        if info.idx < wl.nextReceive { return; }
        var next := (info.idx + 1) % TWO_32;
        repo.UpdateWalletIndexes(wl.hash, next, wl.nextChange);
        wallets := wallets[info.walletIdx := wl.(nextReceive := next)];
      case Change =>
        if info.idx < wl.nextChange { return; }
        var next := (info.idx + 1) % TWO_32;
        repo.UpdateWalletIndexes(wl.hash, wl.nextReceive, next);
        wallets := wallets[info.walletIdx := wl.(nextChange := next)];
    }

    // ---- Blocks ----

    // The row both halves of processBlock write; the panic on pos != txPos is the assertion.
    method MakeRow(bh: Hash, txPos: nat) returns (row: TxRow)
      requires txPos < |env.blockOf(bh).txs| && DistinctTxids(env.blockOf(bh).txs)
      ensures row == Row(env, bh, txPos)
    {
      var txs := env.blockOf(bh).txs;
      var pos, branch := Merkle.MerkleProof(env.pairHash, Txids(txs), txs[txPos].txid);
      assert Txids(txs)[txPos] == txs[txPos].txid;
      assert pos == txPos;
      var proof := FlattenBranch(branch);
      row := TxRow(bh, txPos, proof);
    }

    method ProcessOutput(bh: Hash, height: nat, txPos: nat, vout: nat, updatedSH: set<Hash>) returns (updated: set<Hash>)
      requires Valid() && txPos < |env.blockOf(bh).txs| && DistinctTxids(env.blockOf(bh).txs)
      requires vout < |env.blockOf(bh).txs[txPos].outs|
      modifies this`wallets, this`scriptPubkeys, repo`tx, repo`sptx, repo`unspent, repo`utxoIndex, repo`wallet
      ensures Valid() && View(updated) == Step(env, old(View(updatedSH)), OutEvents(env, bh, height, txPos)[vout])
      // the outpoint is the transaction's own txid and this position, the row this output's amount and script
      ensures var tx := env.blockOf(bh).txs[txPos];
              var o, out := OutPoint(tx.txid, vout), tx.outs[vout];
              if out.sh !in old(scriptPubkeys) then updated == updatedSH && unchanged(repo) && unchanged(this)
              else
                && repo.utxoIndex == old(repo.utxoIndex)[o := out]
                && repo.unspent == (if o in old(repo.unspent) then old(repo.unspent) else old(repo.unspent)[o := out])
                && updated == updatedSH + {out.sh}
    {
      var tx := env.blockOf(bh).txs[txPos];
      var out := tx.outs[vout];
      if out.sh !in scriptPubkeys {
        return updatedSH;
      }
      var info := scriptPubkeys[out.sh];
      updated := updatedSH + {out.sh};
      var row := MakeRow(bh, txPos);
      repo.InsertTransaction(tx.txid, row);
      repo.InsertScriptPubkeyTransaction(out.sh, tx.txid);
      repo.InsertUnspentOutput(OutPoint(tx.txid, vout), out);
      WalletUpdateIndexes(info);
      RefillWallet(info.walletIdx);
      RecogniseInRange(env, old(TheKeys()), info);
    }

    method ProcessInput(bh: Hash, height: nat, txPos: nat, vin: nat, updatedSH: set<Hash>) returns (updated: set<Hash>)
      requires Valid() && txPos < |env.blockOf(bh).txs| && DistinctTxids(env.blockOf(bh).txs)
      requires vin < |env.blockOf(bh).txs[txPos].ins|
      modifies repo`tx, repo`sptx, repo`unspent, repo`spent, repo`utxoIndex
      ensures Valid() && View(updated) == Step(env, old(View(updatedSH)), InEvents(env, bh, height, txPos)[vin])
      // the outpoint looked up, spent and removed is the one this input names
      ensures var o := env.blockOf(bh).txs[txPos].ins[vin];
              if o !in old(repo.utxoIndex) then updated == updatedSH && unchanged(repo)
              else
                && repo.utxoIndex == old(repo.utxoIndex) - {o} && repo.unspent == old(repo.unspent) - {o}
                && repo.spent == (if o !in old(repo.unspent) || o in old(repo.spent) then old(repo.spent)
                                  else old(repo.spent)[o := SpentRow(old(repo.unspent)[o], height)])
                && updated == updatedSH + {old(repo.utxoIndex)[o].sh}
    {
      var tx := env.blockOf(bh).txs[txPos];
      var o := tx.ins[vin];
      var u := repo.SelectUnspentOutput(o);
      if u.None? {
        return updatedSH;
      }
      updated := updatedSH + {u.value.sh};
      var row := MakeRow(bh, txPos);
      repo.InsertTransaction(tx.txid, row);
      repo.InsertScriptPubkeyTransaction(u.value.sh, tx.txid);
      repo.DeleteUnspentOutput(o, height);
    }

    // The two inner loops of processBlock, for the transaction at position i.
    method ProcessTx(bh: Hash, height: nat, i: nat, updatedSH: set<Hash>, ghost s: Scan) returns (updated: set<Hash>)
      requires Valid() && i < |env.blockOf(bh).txs| && DistinctTxids(env.blockOf(bh).txs) && LabelsInRange(s.keys)
      requires View(updatedSH) == RunTo(env, s, bh, height, |TxsEvents(env, bh, height, i)|)
      modifies this`wallets, this`scriptPubkeys, repo`tx, repo`sptx, repo`unspent, repo`spent, repo`utxoIndex, repo`wallet
      ensures Valid() && View(updated) == RunTo(env, s, bh, height, |TxsEvents(env, bh, height, i + 1)|)
    {
      hide RunTo, Step, LabelsInRange, OutEvents, InEvents;
      var tx := env.blockOf(bh).txs[i];
      ghost var n := |TxsEvents(env, bh, height, i)|;
      updated := updatedSH;
      var j := 0;
      while j < |tx.outs|
        invariant 0 <= j <= |tx.outs| && Valid()
        invariant View(updated) == RunTo(env, s, bh, height, n + j)
      {
        OutputEvent(env, s, bh, height, i, j);
        updated := ProcessOutput(bh, height, i, j, updated);
        j := j + 1;
      }
      var k := 0;
      while k < |tx.ins|
        invariant 0 <= k <= |tx.ins| && Valid()
        invariant View(updated) == RunTo(env, s, bh, height, n + |tx.outs| + k)
      {
        InputEvent(env, s, bh, height, i, k);
        updated := ProcessInput(bh, height, i, k, updated);
        k := k + 1;
      }
      TxEventsAt(env, bh, height, i);
    }

    // The loop that raises wallet heights after a block.
    method RaiseHeights(height: nat)
      modifies this`wallets, repo`wallet
      ensures wallets == Raised(old(wallets), height)
      ensures repo.wallet == RaisedRows(old(repo.wallet), old(wallets), height, |old(wallets)|)
    {
      var i := 0;
      while i < |wallets|
        invariant 0 <= i <= |wallets| == |old(wallets)|
        invariant forall k :: 0 <= k < i ==> wallets[k] == old(wallets)[k].(height := Max(old(wallets)[k].height, height))
        invariant forall k :: i <= k < |wallets| ==> wallets[k] == old(wallets)[k]
        invariant repo.wallet == RaisedRows(old(repo.wallet), old(wallets), height, i)
      {
        if wallets[i].height < height {
          repo.UpdateWalletHeight(wallets[i].hash, height);
          wallets := wallets[i := wallets[i].(height := height)];
        }
        i := i + 1;
      }
    }

    // processBlock: the block's effect, and a fresh status for every script hash it touched.
    method ProcessBlock(bh: Hash, height: nat) returns (updated: set<Hash>, notes: map<Hash, Option<Hash>>)
      requires Valid() && DistinctTxids(env.blockOf(bh).txs)
      modifies this`wallets, this`scriptPubkeys, repo`tx, repo`sptx, repo`unspent, repo`spent, repo`utxoIndex, repo`wallet
      ensures Valid() && View(updated) == System.ProcessBlock(env, old(View({})), bh, height)
      ensures notes.Keys == updated
      ensures forall sh :: sh in updated ==> IsStatus(sha, repo.View(), repo.header, sh, notes[sh])
    {
      hide NoDuplicates, LabelsInRange, IsStatus, RaisedRows, DistinctTxids, RunTo, TxsEvents, System.ProcessBlock;
      ghost var s := View({});
      BlockBegins(env, s, bh, height);
      updated := {};
      var n := |env.blockOf(bh).txs|;
      var i := 0;
      while i < n
        invariant 0 <= i <= n && Valid()
        invariant View(updated) == RunTo(env, s, bh, height, |TxsEvents(env, bh, height, i)|)
      {
        updated := ProcessTx(bh, height, i, updated, s);
        i := i + 1;
      }
      RaiseHeights(height);
      BlockEnds(env, s, bh, height);
      notes := Notify(updated);
    }

    method Notify(updated: set<Hash>) returns (notes: map<Hash, Option<Hash>>)
      requires repo.Valid()
      ensures notes.Keys == updated
      ensures forall sh :: sh in updated ==> IsStatus(sha, repo.View(), repo.header, sh, notes[sh])
    {
      notes := map[];
      var todo := updated;
      while todo != {}
        invariant todo <= updated && notes.Keys == updated - todo
        invariant forall sh :: sh in notes ==> IsStatus(sha, repo.View(), repo.header, sh, notes[sh])
        decreases |todo|
      {
        var sh :| sh in todo;
        var hist := repo.SelectScriptHashHistory(sh);
        var txs := new TxData[|hist|](i requires 0 <= i < |hist| => hist[i]);
        assert txs[..] == hist;
        var status := ShStatus(sha, txs);
        notes := notes[sh := status];
        todo := todo - {sh};
      }
    }

    // ---- Headers ----

    method CheckReorg(peer: Peer) returns (v: Verdict)
      requires AtTip() && |peer.chain| >= 1
      ensures v == CheckReorgSpec(env, peer, chain)
    {
      hide IsChain, Stored, GetHeaders, Probe, CheckReorgSpec;
      ChainNonEmpty(env, genesis, chain);
      CheckReorgSpecIs(env, peer, chain);
      if bestHeader == 0 {
        return NoReorg;
      }
      var height := bestHeader;
      while true
        invariant 1 <= height <= bestHeader
        invariant Probe(env, peer, chain, height - 1) == CheckReorgSpec(env, peer, chain)
        decreases height
      {
        ProbeIs(env, peer, chain, height - 1);
        if bestHeader - (height - 1) > 6 {
          return PanicTooDeep;
        }
        var hashes := repo.SelectBlockHashesAtHeight(height - 1, 1, chain);
        if |hashes| < 1 {
          return PanicNoHeader;
        }
        var headers := GetHeaders(peer, hashes[0]);
        if |headers| == 0 || env.blockOf(headers[0]).prev == hashes[0] {
          return Fork(height - 1);
        }
        height := height - 1;
      }
    }

    // The head of syncHeaders: the tip is the last stored header, or genesis.
    method LoadTip()
      requires HeadersOk()
      modifies this`bestHeader, this`bestHeaderHash
      ensures AtTip()
    {
      var last := repo.SelectLastBlockHeader(chain);
      if last.Some? {
        bestHeaderHash, bestHeader := last.value.0, last.value.1;
      } else {
        bestHeaderHash, bestHeader := genesis, 0;
      }
    }

    // One turn of the loop of syncHeaders: how it ends, or a longer stored chain.
    method SyncBatch(peer: Peer) returns (done: Option<SyncOutcome>)
      requires AtTip() && GoodPeer(env, genesis, peer)
      modifies this`bestHeader, this`bestHeaderHash, this`chain, repo`header
      ensures AtTip()
      ensures done.Some? ==> chain == old(chain) && (chain, done.value) == SyncSpec(env, peer, old(chain))
      ensures done.None? ==> |old(chain)| < |chain| <= |peer.chain| && chain == peer.chain[..|chain|] && old(chain)[|old(chain)| - 1] in peer.chain
    {
      hide SyncSpec, GetHeaders, CheckReorgSpec, Stored, IsChain;
      ChainNonEmpty(env, genesis, chain);
      ChainNonEmpty(env, genesis, peer.chain);
      SyncChainIs(env, peer, chain);
      BeginsAsPrefix(env, genesis, chain, peer);
      ghost var follows := bestHeaderHash in peer.chain;
      BatchFacts(env, genesis, chain, peer, follows);
      var headers := GetHeaders(peer, bestHeaderHash);
      if |headers| == 0 {
        return Some(UpToDate);
      }
      if env.blockOf(headers[0]).prev != bestHeaderHash {
        var v := CheckReorg(peer);
        return Some(OutcomeOf(v));
      }
      var failed := InsertHeaders(headers, peer);
      return if failed then Some(InsertFailed) else None;
    }

    // syncHeaders: batch after batch to the end of the peer's chain, or the verdict on a reorg.
    method SyncHeaders(peer: Peer) returns (out: SyncOutcome)
      requires HeadersOk() && GoodPeer(env, genesis, peer)
      modifies this`bestHeader, this`bestHeaderHash, this`chain, repo`header
      ensures AtTip() && (chain, out) == SyncSpec(env, peer, old(chain))
    {
      hide SyncSpec, Stored, IsChain;
      ChainNonEmpty(env, genesis, chain);
      ChainNonEmpty(env, genesis, peer.chain);
      LoadTip();
      while true
        invariant AtTip() && |chain| >= 1 && SyncSpec(env, peer, chain) == SyncSpec(env, peer, old(chain))
        decreases |peer.chain| - |chain|
        modifies this`bestHeader, this`bestHeaderHash, this`chain, repo`header
      {
        ghost var before := chain;
        var done := SyncBatch(peer);
        if done.Some? {
          return done.value;
        }
        BatchKeepsSpec(env, peer, before, chain);
      }
    }

    // The inner loop of syncHeaders on a batch that continues the stored tip along the peer's chain.
    method InsertHeaders(headers: seq<Hash>, ghost peer: Peer) returns (failed: bool)
      requires AtTip() && GoodPeer(env, genesis, peer)
      requires |chain| + |headers| <= |peer.chain| && chain == peer.chain[..|chain|] && headers == peer.chain[|chain|..|chain| + |headers|]
      modifies this`bestHeader, this`bestHeaderHash, this`chain, repo`header
      ensures !failed && AtTip() && |chain| == |old(chain)| + |headers| && chain == peer.chain[..|chain|]
    {
      var i := 0;
      while i < |headers|
        invariant 0 <= i <= |headers| && AtTip()
        invariant |chain| == |old(chain)| + i && chain == peer.chain[..|chain|]
      {
        assert headers[i] == peer.chain[|chain|];
        NextHeader(env, genesis, peer, repo.header, chain);
        if env.blockOf(headers[i]).prev != bestHeaderHash {
          return true;
        }
        var ok := repo.InsertBlockHeader(headers[i], bestHeader + 1);
        if !ok {
          return true;
        }
        chain := chain + [headers[i]];
        bestHeader := bestHeader + 1;
        bestHeaderHash := headers[i];
        i := i + 1;
      }
      return false;
    }

    // The loop of processReorg over the wallets in memory.
    method LowerHeights(h: nat)
      modifies this`wallets
      ensures wallets == Lowered(old(wallets), h)
    {
      var i := 0;
      while i < |wallets|
        invariant 0 <= i <= |wallets| == |old(wallets)|
        invariant forall k :: 0 <= k < i ==> wallets[k] == old(wallets)[k].(height := Min(h, old(wallets)[k].height))
        invariant forall k :: i <= k < |wallets| ==> wallets[k] == old(wallets)[k]
      {
        wallets := wallets[i := wallets[i].(height := Min(h, wallets[i].height))];
        i := i + 1;
      }
    }

    // processReorg: refused, and nothing changed, when the rollback's plain INSERT would collide.
    method ProcessReorg(h: nat, ghost updated: set<Hash>) returns (ok: bool)
      requires Valid() && AtTip() && 1 <= h < |chain|
      modifies this`wallets, this`bestHeader, this`bestHeaderHash, this`chain, repo
      ensures Valid() && ok == RollbackAllowed(old(repo.View()), h)
      ensures !ok ==> unchanged(repo) && unchanged(this)
      ensures ok ==> AtTip() && Sys(chain, View(updated)) == System.ProcessReorg(Sys(old(chain), old(View(updated))), old(repo.header), h)
    {
      hide RollbackAllowed, Rollback, LoweredRows, NoDuplicates, LabelsInRange, CommittedRollback, HeadersUpTo, RowSet, Stored, IsChain;
      ChainNonEmpty(env, genesis, chain);
      assert chain[..h + 1] != [];
      var hashes := repo.SelectBlockHashesAtHeight(h, 1, chain);
      assert |hashes| == 1;
      PrefixStored(env, genesis, repo.header, chain, h);
      ok := repo.DeleteAllSinceBlock(h);
      if !ok {
        return;
      }
      repo.ReloadCaches();
      AfterReload(old(repo.View()), old(repo.header), h);
      LowerHeights(h);
      LoweredInRange(old(TheKeys()), h);
      bestHeader := h;
      bestHeaderHash := hashes[0];
      chain := chain[..h + 1];
    }

    // ---- Wallets ----

    method LowestHeight() returns (height: nat)
      requires |wallets| >= 1
      ensures height == MinHeight(wallets)
    {
      height := wallets[0].height;
      var i := 0;
      while i < |wallets|
        invariant 0 <= i <= |wallets|
        invariant i > 0 ==> height == MinHeight(wallets[..i])
        invariant i == 0 ==> height == wallets[0].height
      {
        MinHeightStep(wallets, i);
        height := Min(height, wallets[i].height);
        i := i + 1;
      }
      assert wallets[..|wallets|] == wallets;
    }

    // syncWallets: batches of 2000 hashes, every height above the lowest wallet once, in order.
    method SyncWallets() returns (updated: set<Hash>)
      requires Valid() && AtTip()
      requires GoodTxids(env, chain)
      modifies this`wallets, this`scriptPubkeys, repo`tx, repo`sptx, repo`unspent, repo`spent, repo`utxoIndex, repo`wallet
      ensures Valid() && Sys(chain, View(updated)) == System.SyncWallets(env, Sys(chain, old(View({}))))
    {
      hide ScanBlocks, LabelsInRange, IsChain, Stored, GoodTxids, RowSet, MinHeight, NoDuplicates, System.SyncWallets;
      SyncWalletsIs(env, Sys(chain, View({})));
      updated := {};
      if |wallets| == 0 {
        return;
      }
      ghost var s := View({});
      var from := LowestHeight();
      if from >= bestHeader {
        return;
      }
      var height := from + 1;
      NoBlocks(env, s, chain, from);
      while height <= bestHeader
        invariant from < height <= bestHeader + 1 && Valid() && AtTip()
        invariant View(updated) == ScanBlocks(env, s, chain, from, height - 1)
        decreases bestHeader + 1 - height
        modifies this`wallets, this`scriptPubkeys, repo`tx, repo`sptx, repo`unspent, repo`spent, repo`utxoIndex, repo`wallet
      {
        var hbuf := repo.SelectBlockHashesAtHeight(height, 2000, chain);
        assert |hbuf| > 0;
        updated := ProcessBatch(hbuf, height, updated, s, from);
        height := height + |hbuf|;
      }
    }

    // The inner loop of syncWallets, over one batch of hashes.
    method ProcessBatch(hbuf: seq<Hash>, first: nat, updatedSH: set<Hash>, ghost s: Scan, ghost from: nat) returns (updated: set<Hash>)
      requires Valid() && AtTip()
      requires GoodTxids(env, chain)
      requires LabelsInRange(s.keys) && from < first && first + |hbuf| <= |chain| && hbuf == chain[first..first + |hbuf|]
      requires View(updatedSH) == ScanBlocks(env, s, chain, from, first - 1)
      modifies this`wallets, this`scriptPubkeys, repo`tx, repo`sptx, repo`unspent, repo`spent, repo`utxoIndex, repo`wallet
      ensures Valid() && View(updated) == ScanBlocks(env, s, chain, from, first + |hbuf| - 1)
    {
      hide System.ProcessBlock, LabelsInRange, IsChain, DistinctTxids, Stored, RowSet, NoDuplicates;
      updated := updatedSH;
      var i := 0;
      while i < |hbuf|
        invariant 0 <= i <= |hbuf| && Valid()
        invariant View(updated) == ScanBlocks(env, s, chain, from, first + i - 1)
      {
        assert hbuf[i] == chain[first + i];
        ghost var before := View(updated);
        var touched, notes := ProcessBlock(hbuf[i], first + i);
        UpdatedIgnored(env, before, hbuf[i], first + i);
        updated := touched;
        i := i + 1;
      }
    }

    // The header half of a round: syncHeaders, and processReorg when it reports a reorg.
    method HeaderRound(peer: Peer) returns (alive: bool)
      requires Valid() && HeadersOk() && GoodPeer(env, genesis, peer)
      modifies this, repo
      ensures Valid() && AtTip()
      ensures alive <==> TickHeaders(env, peer, Sys(old(chain), old(View({})))).Some?
      ensures alive ==> Some(Sys(chain, View({}))) == TickHeaders(env, peer, Sys(old(chain), old(View({}))))
    {
      hide RollbackAllowed, System.ProcessReorg, IsChain, Stored, LabelsInRange, NoDuplicates, SyncSpec, HeaderTable, ForkHeight;
      ChainNonEmpty(env, genesis, chain);
      ChainNonEmpty(env, genesis, peer.chain);
      ghost var before, table := chain, repo.header;
      SyncOutcomes(env, genesis, peer, chain);
      HeaderTableIsStored(env, genesis, chain);
      StoredIsDetermined(table, HeaderTable(chain), chain);
      var out := SyncHeaders(peer);
      if out.UpToDate? {
        return true;
      }
      if !out.Reorg? {
        return false;
      }
      StoredIsDetermined(repo.header, HeaderTable(chain), chain);
      alive := ProcessReorg(out.height, {});
    }

    // One round of run.
    method Tick(peer: Peer) returns (alive: bool, updated: set<Hash>)
      requires Valid() && HeadersOk() && GoodPeer(env, genesis, peer)
      requires GoodTxids(env, chain) && GoodTxids(env, peer.chain)
      modifies this, repo
      ensures Valid() && AtTip()
      ensures alive <==> Runs.Tick(env, peer, Sys(old(chain), old(View({})))).Some?
      ensures alive ==> Some(Sys(chain, View(updated))) == Runs.Tick(env, peer, Sys(old(chain), old(View({}))))
    {
      hide RollbackAllowed, IsChain, Stored, LabelsInRange, NoDuplicates, RowSet, SyncSpec, TickHeaders, System.SyncWallets, GoodTxids, Runs.Tick;
      ChainNonEmpty(env, genesis, chain);
      ChainNonEmpty(env, genesis, peer.chain);
      RoundKeepsTxids(env, peer, Sys(chain, View({})));
      ghost var sys := Sys(chain, View({}));
      updated := {};
      alive := HeaderRound(peer);
      if alive {
        assert |chain| >= 1 by { ChainNonEmpty(env, genesis, chain); }
        TickIs(env, peer, sys, Sys(chain, View({})));
        updated := SyncWallets();
      } else {
        TickStops(env, peer, sys);
      }
    }

    // run: a round at the start and one at each tick, until one ends in an error.
    method Run(peers: seq<Peer>) returns (alive: bool)
      requires Valid() && HeadersOk() && GoodTxids(env, chain)
      requires forall p :: p in peers ==> |p.chain| >= 1 && GoodPeer(env, genesis, p) && GoodTxids(env, p.chain)
      modifies this, repo
      ensures Valid() && HeadersOk() && |chain| >= 1
      ensures alive <==> Rounds(env, peers, Sys(old(chain), old(View({})))).Some?
      ensures alive ==> exists u :: Rounds(env, peers, Sys(old(chain), old(View({})))) == Some(Sys(chain, View(u)))
    {
      hide IsChain, Stored, LabelsInRange, NoDuplicates, RowSet, GoodTxids, Runs.Tick, GoodPeer, Rounds;
      assert |chain| >= 1 by { ChainNonEmpty(env, genesis, chain); }
      ghost var sys := Sys(chain, View({}));
      ghost var updated: set<Hash> := {};
      alive := true;
      NoRounds(env, peers, sys);
      var i := 0;
      while i < |peers|
        invariant 0 <= i <= |peers| && Valid() && HeadersOk() && |chain| >= 1 && GoodTxids(env, chain) && alive
        invariant Rounds(env, peers[..i], sys) == Some(Sys(chain, View(updated)))
        modifies this, repo
      {
        RoundsNext(env, peers, sys, i);
        TickIgnoresUpdated(env, peers[i], chain, View(updated));
        RoundKeepsTxids(env, peers[i], Sys(chain, View({})));
        var next;
        alive, next := Tick(peers[i]);
        if !alive {
          RoundsStopped(env, peers, sys, i + 1);
          return;
        }
        updated := next;
        assert |chain| >= 1 by { ChainNonEmpty(env, genesis, chain); }
        i := i + 1;
      }
      assert peers[..i] == peers;
    }

    // GetBlockHeaders: genesis is spliced in front when asked for.
    method GetBlockHeaders(height: nat, limit: nat) returns (headers: seq<seq<byte>>)
      requires HeadersOk()
      ensures headers == RawHeaders(rawHeader, if height < |chain| then chain[height..Min(height + limit, |chain|)] else [])
    {
      hide IsChain, Stored;
      ChainNonEmpty(env, genesis, chain);
      var hashes := repo.SelectBlockHashesAtHeight(if height == 0 then 1 else height, limit, chain);
      headers := RawHeaders(rawHeader, hashes);
      if height == 0 {
        GenesisSpliced(rawHeader, chain, limit);
        headers := [rawHeader(genesis)] + headers;
        if |headers| > limit {
          headers := headers[..|headers| - 1];
        }
      }
    }

    // GetScriptHashBalance: 0 for a script hash that is not watched, whatever the tables hold for it.
    method GetScriptHashBalance(sh: Hash) returns (conf: nat)
      ensures conf == Answer(TheKeys(), repo.View(), sh)
    {
      hide Balance;
      if sh !in scriptPubkeys {
        return 0;
      }
      conf := repo.SelectScriptHashBalance(sh);
    }

    // GetTransactionMerkle: the stored proof cut back into hashes; no row is the not-found error.
    method GetTransactionMerkle(txid: Hash) returns (md: Option<(seq<Hash>, nat)>)
      requires txid in repo.tx ==> |repo.tx[txid].proof| % 32 == 0
      ensures md.Some? <==> txid in repo.tx
      ensures md.Some? ==> md.value.1 == repo.tx[txid].pos && forall b :: Flatten(b) == repo.tx[txid].proof ==> md.value.0 == b
    {
      if txid !in repo.tx {
        return None;
      }
      var row := repo.tx[txid];
      var branch := CutBranch(row.proof);
      return Some((branch, row.pos));
    }

    // New: a fresh process over a stored database.
    constructor (env: Env, genesis: Hash, sha: string -> Hash, rawHeader: Hash -> seq<byte>, repo: Repository, ids: seq<Hash>, births: seq<nat>, ghost chain: seq<Hash>)
      requires repo.Valid() && IsChain(env, genesis, chain) && Stored(repo.header, chain) && |ids| == |births|
      modifies repo`utxoIndex, repo`wallet
      ensures this.env == env && this.genesis == genesis && this.sha == sha && this.rawHeader == rawHeader && this.repo == repo && this.chain == chain
      ensures Valid() && HeadersOk()
      ensures Sys(chain, View({})) == Restart(env, ids, births, Sys(chain, Scan(old(repo.View()), Keys([], map[]), old(repo.wallet), {})))
    {
      this.env, this.genesis, this.sha, this.rawHeader, this.repo, this.chain := env, genesis, sha, rawHeader, repo, chain;
      bestHeader, bestHeaderHash, wallets, scriptPubkeys := 0, genesis, [], map[];
      new;
      hide System.SetupWallet, LabelsInRange, NoDuplicates, Stored;
      repo.ReloadCaches();
      SetupWallets(ids, births);
    }

    // The loop of New over the configured wallets.
    method SetupWallets(ids: seq<Hash>, births: seq<nat>)
      requires wallets == [] && scriptPubkeys == map[] && |ids| == |births|
      modifies this`wallets, this`scriptPubkeys, repo`wallet
      ensures LabelsInRange(TheKeys()) && (TheKeys(), repo.wallet) == Setup(env, ids, births, old(repo.wallet), |ids|)
    {
      hide System.SetupWallet, LabelsInRange;
      NoLabels();
      var i := 0;
      while i < |ids|
        invariant 0 <= i <= |ids| && LabelsInRange(TheKeys())
        invariant (TheKeys(), repo.wallet) == Setup(env, ids, births, old(repo.wallet), i)
      {
        SetupWallet(ids[i], births[i]);
        i := i + 1;
      }
    }

    method SetupWallet(hash: Hash, birth: nat)
      requires LabelsInRange(TheKeys())
      modifies this`wallets, this`scriptPubkeys, repo`wallet
      ensures (TheKeys(), repo.wallet) == System.SetupWallet(env, old(TheKeys()), old(repo.wallet), hash, birth)
      ensures LabelsInRange(TheKeys())
    {
      var row;
      if hash in repo.wallet {
        row := repo.wallet[hash];
      } else {
        row := WalletRow(birth, 0, 0);
        var ok := repo.InsertWalletData(hash, row);
      }
      var w := |wallets|;
      wallets := wallets + [Wallet(hash, row.height, row.nextReceive, 0, row.nextChange, 0)];
      ghost var extended := TheKeys();
      RefillWallet(w);
      RefillAccountInRange(env, extended, w, Receive);
      RefillAccountInRange(env, RefillAccount(env, extended, w, Receive), w, Change);
    }
  }

  function RawHeaders(raw: Hash -> seq<byte>, hashes: seq<Hash>): (r: seq<seq<byte>>)
    ensures |r| == |hashes| && forall i :: 0 <= i < |r| ==> r[i] == raw(hashes[i])
  {
    seq(|hashes|, i requires 0 <= i < |hashes| => raw(hashes[i]))
  }

  // Genesis before the headers from height 1 on, and the last cut off when there is one too many.
  lemma GenesisSpliced(raw: Hash -> seq<byte>, chain: seq<Hash>, limit: nat)
    requires |chain| >= 1
    ensures var all := [raw(chain[0])] + RawHeaders(raw, if |chain| > 1 then chain[1..Min(1 + limit, |chain|)] else []);
            (if |all| > limit then all[..|all| - 1] else all) == RawHeaders(raw, chain[..Min(limit, |chain|)])
  {
  }

  // ---- Lemmas about the loops ----

  lemma TickIgnoresUpdated(env: Env, peer: Peer, chain: seq<Hash>, s: Scan)
    requires |chain| >= 1 && |peer.chain| >= 1 && LabelsInRange(s.keys)
    ensures Runs.Tick(env, peer, Sys(chain, s)) == Runs.Tick(env, peer, Sys(chain, s.(updated := {})))
  {
    hide System.ProcessReorg, System.SyncWallets, SyncSpec, RollbackAllowed, HeaderTable, LabelsInRange;
    assert Quiet(Sys(chain, s)) == Quiet(Sys(chain, s.(updated := {})));
  }

  lemma RoundsNext(env: Env, peers: seq<Peer>, sys: Sys, i: nat)
    requires |sys.chain| >= 1 && LabelsInRange(sys.scan.keys) && (forall p :: p in peers ==> |p.chain| >= 1) && i < |peers|
    ensures Rounds(env, peers[..i + 1], sys)
            == match Rounds(env, peers[..i], sys)
               case None => None
               case Some(s) =>
                 match Runs.Tick(env, peers[i], s)
                 case None => None
                 case Some(e) => if |e.chain| >= 1 && LabelsInRange(e.scan.keys) then Some(e) else None
  {
    assert peers[..i + 1][..i] == peers[..i];
  }

  lemma NoRounds(env: Env, peers: seq<Peer>, sys: Sys)
    requires |sys.chain| >= 1 && LabelsInRange(sys.scan.keys) && forall p :: p in peers ==> |p.chain| >= 1
    ensures Rounds(env, peers[..0], sys) == Some(sys)
  {
  }

  lemma {:induction false} RoundsStopped(env: Env, peers: seq<Peer>, sys: Sys, i: nat)
    requires |sys.chain| >= 1 && LabelsInRange(sys.scan.keys) && (forall p :: p in peers ==> |p.chain| >= 1) && i <= |peers|
    requires Rounds(env, peers[..i], sys).None?
    ensures Rounds(env, peers, sys).None?
    decreases |peers| - i
  {
    if i < |peers| {
      RoundsNext(env, peers, sys, i);
      RoundsStopped(env, peers, sys, i + 1);
    } else {
      assert peers[..i] == peers;
    }
  }

  // A status for a script hash: that of a history the tables hold now.
  ghost predicate IsStatus(sha: string -> Hash, l: Ledger, header: map<Hash, nat>, sh: Hash, status: Option<Hash>) {
    exists hist :: IsHistory(l, header, sh, hist) && status == Status(sha, hist)
  }

  // The run over the first k events of a block.
  function RunTo(env: Env, s: Scan, bh: Hash, height: nat, k: nat): (r: Scan)
    requires LabelsInRange(s.keys)
    ensures LabelsInRange(r.keys)
  {
    var es := BlockEvents(env, bh, height);
    Run(env, s, es, 0, if k <= |es| then k else |es|)
  }

  lemma BlockBegins(env: Env, s: Scan, bh: Hash, height: nat)
    requires LabelsInRange(s.keys)
    ensures RunTo(env, s, bh, height, |TxsEvents(env, bh, height, 0)|) == s
  {
  }

  lemma BlockEnds(env: Env, s: Scan, bh: Hash, height: nat)
    requires LabelsInRange(s.keys) && s.updated == {}
    ensures var m := RunTo(env, s, bh, height, |TxsEvents(env, bh, height, |env.blockOf(bh).txs|)|);
            Invariant.BlockResult(m, height, System.ProcessBlock(env, s, bh, height))
  {
    hide TxsEvents, Run;
    assert s.(updated := {}) == s;
  }

  lemma RunToNext(env: Env, s: Scan, bh: Hash, height: nat, k: nat)
    requires LabelsInRange(s.keys) && k < |BlockEvents(env, bh, height)|
    ensures RunTo(env, s, bh, height, k + 1) == Step(env, RunTo(env, s, bh, height, k), BlockEvents(env, bh, height)[k])
  {
    hide Step, BlockEvents;
  }

  lemma OutputEvent(env: Env, s: Scan, bh: Hash, height: nat, i: nat, j: nat)
    requires LabelsInRange(s.keys) && i < |env.blockOf(bh).txs| && j < |env.blockOf(bh).txs[i].outs|
    ensures var k := |TxsEvents(env, bh, height, i)| + j;
            RunTo(env, s, bh, height, k + 1) == Step(env, RunTo(env, s, bh, height, k), OutEvents(env, bh, height, i)[j])
  {
    hide Step, RunTo, LabelsInRange, OutEvents, InEvents, TxsEvents, BlockEvents;
    var k := |TxsEvents(env, bh, height, i)| + j;
    TxEventsAt(env, bh, height, i);
    EventOfBlock(env, bh, height, i, k);
    RunToNext(env, s, bh, height, k);
  }

  lemma InputEvent(env: Env, s: Scan, bh: Hash, height: nat, i: nat, j: nat)
    requires LabelsInRange(s.keys) && i < |env.blockOf(bh).txs| && j < |env.blockOf(bh).txs[i].ins|
    ensures var k := |TxsEvents(env, bh, height, i)| + |env.blockOf(bh).txs[i].outs| + j;
            RunTo(env, s, bh, height, k + 1) == Step(env, RunTo(env, s, bh, height, k), InEvents(env, bh, height, i)[j])
  {
    hide Step, RunTo, LabelsInRange, OutEvents, InEvents, TxsEvents, BlockEvents;
    var k := |TxsEvents(env, bh, height, i)| + |env.blockOf(bh).txs[i].outs| + j;
    TxEventsAt(env, bh, height, i);
    EventOfBlock(env, bh, height, i, k);
    RunToNext(env, s, bh, height, k);
  }

  lemma BeginsAsPrefix(env: Env, genesis: Hash, chain: seq<Hash>, peer: Peer)
    requires IsChain(env, genesis, chain) && GoodPeer(env, genesis, peer)
    ensures chain[|chain| - 1] in peer.chain ==> |chain| <= |peer.chain| && chain == peer.chain[..|chain|]
  {
    if chain[|chain| - 1] in peer.chain {
      MemberMeansPrefix(env, genesis, chain, peer.chain, |chain| - 1);
      assert chain[..|chain|] == chain;
    }
  }

  // What GetHeaders answers to the tip: the next headers of a peer that has it, or headers that do
  // not link to it.
  lemma BatchFacts(env: Env, genesis: Hash, chain: seq<Hash>, peer: Peer, follows: bool)
    requires IsChain(env, genesis, chain) && GoodPeer(env, genesis, peer) && (follows ==> |chain| <= |peer.chain| && chain == peer.chain[..|chain|])
    requires !follows ==> chain[|chain| - 1] !in peer.chain
    ensures var hs := GetHeaders(peer, chain[|chain| - 1]);
            && (follows && hs == [] ==> chain == peer.chain)
            && (follows && hs != [] ==> |chain| + |hs| <= |peer.chain| && hs == peer.chain[|chain|..|chain| + |hs|]
                                        && env.blockOf(hs[0]).prev == chain[|chain| - 1])
            && (!follows && hs == [] ==> |peer.chain| == 1)
            && (!follows && hs != [] ==> |peer.chain| != 1 && env.blockOf(hs[0]).prev != chain[|chain| - 1])
  {
    hide IsChain, GetHeaders;
    ChainNonEmpty(env, genesis, chain);
    ChainNonEmpty(env, genesis, peer.chain);
    if follows {
      assert chain[|chain| - 1] == peer.chain[|chain| - 1];
      GetHeadersOnChain(env, genesis, peer, |chain| - 1);
      assert peer.chain[..|peer.chain|] == peer.chain;
      if |chain| < |peer.chain| {
        ChainLink(env, genesis, peer.chain, |chain|);
      }
    } else {
      GetHeadersOffChain(peer, chain[|chain| - 1]);
      assert peer.chain[0] in peer.chain;
      if |peer.chain| > 1 {
        ChainLink(env, genesis, peer.chain, 1);
      }
    }
  }

  // The next header of the peer links to the tip, is new, and extends the stored chain.
  lemma NextHeader(env: Env, genesis: Hash, peer: Peer, header: map<Hash, nat>, chain: seq<Hash>)
    requires GoodPeer(env, genesis, peer) && Stored(header, chain) && |chain| < |peer.chain| && chain == peer.chain[..|chain|]
    ensures var next := peer.chain[|chain|];
            && env.blockOf(next).prev == chain[|chain| - 1] && next !in header
            && IsChain(env, genesis, chain + [next]) && Stored(header[next := |chain|], chain + [next])
            && chain + [next] == peer.chain[..|chain| + 1]
  {
    var next := peer.chain[|chain|];
    var longer := chain + [next];
    assert longer == peer.chain[..|chain| + 1];
    forall i | 0 <= i < |longer| ensures longer[i] == peer.chain[i] {
    }
    forall b | b in header ensures b != next {
      assert b == chain[header[b]] == peer.chain[header[b]];
    }
  }

  lemma CheckReorgSpecIs(env: Env, peer: Peer, chain: seq<Hash>)
    requires |chain| >= 1 && |peer.chain| >= 1
    ensures |chain| == 1 ==> CheckReorgSpec(env, peer, chain) == NoReorg
    ensures |chain| > 1 ==> CheckReorgSpec(env, peer, chain) == Probe(env, peer, chain, |chain| - 2)
  {
  }

  lemma ProbeIs(env: Env, peer: Peer, chain: seq<Hash>, t: nat)
    requires t < |chain| && |peer.chain| >= 1
    ensures |chain| - 1 - t > 6 ==> Probe(env, peer, chain, t) == PanicTooDeep
    ensures |chain| - 1 - t <= 6 && t == 0 ==> Probe(env, peer, chain, t) == PanicNoHeader
    ensures |chain| - 1 - t <= 6 && t > 0 ==>
              var hs := GetHeaders(peer, chain[t]);
              Probe(env, peer, chain, t) == if hs == [] || env.blockOf(hs[0]).prev == chain[t] then Fork(t) else Probe(env, peer, chain, t - 1)
  {
  }

  // A round is its header half and then syncWallets.
  lemma TickStops(env: Env, peer: Peer, sys: Sys)
    requires |sys.chain| >= 1 && |peer.chain| >= 1 && LabelsInRange(sys.scan.keys) && TickHeaders(env, peer, sys).None?
    ensures Runs.Tick(env, peer, sys).None?
  {
  }

  lemma TickIs(env: Env, peer: Peer, sys: Sys, mid: Sys)
    requires |sys.chain| >= 1 && |peer.chain| >= 1 && LabelsInRange(sys.scan.keys)
    requires TickHeaders(env, peer, sys) == Some(mid) && |mid.chain| >= 1 && LabelsInRange(mid.scan.keys)
    ensures Runs.Tick(env, peer, sys) == Some(System.SyncWallets(env, mid))
  {
  }

  lemma PrefixStored(env: Env, genesis: Hash, header: map<Hash, nat>, chain: seq<Hash>, h: nat)
    requires IsChain(env, genesis, chain) && Stored(header, chain) && h < |chain|
    ensures IsChain(env, genesis, chain[..h + 1]) && Stored(HeadersUpTo(header, h), chain[..h + 1])
  {
    var pre := chain[..h + 1];
    forall i | 0 <= i < |pre| ensures pre[i] == chain[i] {
    }
  }

  lemma NoLabels()
    ensures LabelsInRange(Keys([], map[]))
  {
  }

  lemma LoweredInRange(ks: Keys, h: nat)
    requires LabelsInRange(ks)
    ensures LabelsInRange(ks.(wallets := Lowered(ks.wallets, h)))
  {
  }

  lemma AfterReload(l: Ledger, header: map<Hash, nat>, h: nat)
    ensures var c := CommittedRollback(l, header, h); c.(index := c.unspent) == Rollback(l, header, h)
  {
  }

  lemma MinHeightStep(wallets: seq<Wallet>, i: nat)
    requires i < |wallets|
    ensures MinHeight(wallets[..i + 1]) == if i == 0 then wallets[0].height else Min(MinHeight(wallets[..i]), wallets[i].height)
  {
    assert wallets[..i + 1][..i] == wallets[..i];
  }

  lemma UpdatedIgnored(env: Env, s: Scan, bh: Hash, t: nat)
    requires LabelsInRange(s.keys)
    ensures System.ProcessBlock(env, s, bh, t) == System.ProcessBlock(env, s.(updated := {}), bh, t)
  {
  }

  lemma SyncChainIs(env: Env, peer: Peer, chain: seq<Hash>)
    requires |chain| >= 1 && |peer.chain| >= 1
    ensures var (after, out) := SyncSpec(env, peer, chain);
            (after == chain || after == peer.chain) && (chain[|chain| - 1] in peer.chain ==> (after, out) == (peer.chain, UpToDate))
            && (chain[|chain| - 1] !in peer.chain ==>
                 (after, out) == (chain, if |peer.chain| == 1 then UpToDate else OutcomeOf(CheckReorgSpec(env, peer, chain))))
  {
  }

  // A batch along the peer's chain leaves the end of the round as it was.
  lemma BatchKeepsSpec(env: Env, peer: Peer, before: seq<Hash>, after: seq<Hash>)
    requires 1 <= |before| < |after| <= |peer.chain| && after == peer.chain[..|after|] && before[|before| - 1] in peer.chain
    ensures SyncSpec(env, peer, after) == SyncSpec(env, peer, before)
  {
    hide SyncSpec, CheckReorgSpec;
    SyncChainIs(env, peer, before);
    assert after[|after| - 1] == peer.chain[|after| - 1];
    SyncChainIs(env, peer, after);
  }

  lemma SyncWalletsIs(env: Env, sys: Sys)
    requires |sys.chain| >= 1 && LabelsInRange(sys.scan.keys)
    ensures var ws := sys.scan.keys.wallets;
            && (|ws| == 0 || MinHeight(ws) >= |sys.chain| - 1 ==> System.SyncWallets(env, sys) == sys)
            && (|ws| > 0 && MinHeight(ws) < |sys.chain| - 1 ==>
                 System.SyncWallets(env, sys) == Sys(sys.chain, ScanBlocks(env, sys.scan, sys.chain, MinHeight(ws), |sys.chain| - 1)))
  {
    hide ScanBlocks, MinHeight, LabelsInRange;
  }

  // No two transactions of a block share a txid.
  ghost predicate GoodTxids(env: Env, chain: seq<Hash>) {
    forall t :: 1 <= t < |chain| ==> DistinctTxids(env.blockOf(chain[t]).txs)
  }

  lemma RoundKeepsTxids(env: Env, peer: Peer, sys: Sys)
    requires |sys.chain| >= 1 && |peer.chain| >= 1 && GoodTxids(env, sys.chain) && GoodTxids(env, peer.chain)
    requires LabelsInRange(sys.scan.keys)
    ensures TickHeaders(env, peer, sys).Some? ==> GoodTxids(env, TickHeaders(env, peer, sys).value.chain)
    ensures Runs.Tick(env, peer, sys).Some? ==> GoodTxids(env, Runs.Tick(env, peer, sys).value.chain)
  {
    hide CheckReorgSpec, DistinctTxids, Rollback, RollbackAllowed, LoweredRows, HeaderTable, LabelsInRange, ScanBlocks, Lowered;
  }

  lemma ChainLink(env: Env, genesis: Hash, chain: seq<Hash>, i: nat)
    requires IsChain(env, genesis, chain) && 0 < i < |chain|
    ensures env.blockOf(chain[i]).prev == chain[i - 1]
  {
  }

  lemma ChainNonEmpty(env: Env, genesis: Hash, chain: seq<Hash>)
    requires IsChain(env, genesis, chain)
    ensures |chain| >= 1 && chain[0] == genesis
  {
  }
}
