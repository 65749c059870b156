// What the Electrum server reads: balances, unspent outputs and histories, and why the script
// hashes notified after a block are enough.
module Queries {
  import opened Base
  import opened Tables
  import opened Oracle
  import opened Passes
  import opened Derivation
  import opened Scan
  import opened Chain
  import opened Blocks
  import opened Codec
  import Merkle
  import RollbackProof
  import System

  // ---- Balances ----

  function Amount(u: Utxo, sh: Hash): nat {
    if u.sh == sh then u.satoshi else 0
  }

  // The sum selectScriptHashBalance forms, in any order.
  ghost function Balance(m: map<OutPoint, Utxo>, sh: Hash): nat
    decreases |m|
  {
    if m == map[] then 0
    else
      var o :| o in m;
      Amount(m[o], sh) + Balance(m - {o}, sh)
  }

  lemma {:induction false} BalanceWithout(m: map<OutPoint, Utxo>, sh: Hash, o: OutPoint)
    requires o in m
    ensures Balance(m, sh) == Amount(m[o], sh) + Balance(m - {o}, sh)
    decreases |m|
  {
    var x :| x in m && Balance(m, sh) == Amount(m[x], sh) + Balance(m - {x}, sh);
    if x != o {
      BalanceWithout(m - {x}, sh, o);
      BalanceWithout(m - {o}, sh, x);
      assert m - {x} - {o} == m - {o} - {x};
    }
  }

  lemma BalanceWith(m: map<OutPoint, Utxo>, sh: Hash, o: OutPoint, u: Utxo)
    requires o !in m
    ensures Balance(m[o := u], sh) == Balance(m, sh) + Amount(u, sh)
  {
    BalanceWithout(m[o := u], sh, o);
    assert m[o := u] - {o} == m;
  }

  // Outputs received and outputs spent, counted along the chain.
  ghost function Received(coin: OutPoint -> Utxo, es: seq<Event>, p: nat, r: set<OutPoint>, sh: Hash): nat
    requires p <= |es|
  {
    if p == 0 then 0
    else Received(coin, es, p - 1, r, sh) + if es[p - 1].Fund? && es[p - 1].op in r then Amount(coin(es[p - 1].op), sh) else 0
  }

  ghost function Paid(coin: OutPoint -> Utxo, es: seq<Event>, p: nat, r: set<OutPoint>, sh: Hash): nat
    requires p <= |es|
  {
    if p == 0 then 0
    else Paid(coin, es, p - 1, r, sh) + if es[p - 1].Spend? && es[p - 1].op in r then Amount(coin(es[p - 1].op), sh) else 0
  }

  lemma {:induction false} SumsIgnoreUnseen(coin: OutPoint -> Utxo, es: seq<Event>, p: nat, r: set<OutPoint>, sh: Hash, o: OutPoint)
    requires p <= |es| && forall k :: 0 <= k < p ==> es[k].op != o
    ensures Received(coin, es, p, r, sh) == Received(coin, es, p, r - {o}, sh)
    ensures Paid(coin, es, p, r, sh) == Paid(coin, es, p, r - {o}, sh)
  {
    if p > 0 { SumsIgnoreUnseen(coin, es, p - 1, r, sh, o); }
  }

  lemma NotBeforeItsFunding(coin: OutPoint -> Utxo, es: seq<Event>, p: nat, r: set<OutPoint>)
    requires Wf(coin, es) && p < |es| && es[p].Fund? && r <= Funded(es, p + 1)
    ensures forall k :: 0 <= k < p ==> es[k].op != es[p].op
    ensures r - {es[p].op} <= Funded(es, p)
  {
    forall o | o in r && o != es[p].op ensures o in Funded(es, p) {
      var k :| 0 <= k < p + 1 && es[k].Fund? && es[k].op == o;
      assert k < p;
    }
  }

  lemma FundedBySpend(es: seq<Event>, p: nat)
    requires p < |es| && es[p].Spend?
    ensures Funded(es, p + 1) == Funded(es, p)
  {
  }

  lemma ConservationFund(coin: OutPoint -> Utxo, es: seq<Event>, p: nat, r: set<OutPoint>, s: set<OutPoint>, sh: Hash)
    requires Wf(coin, es) && p < |es| && r <= Funded(es, p + 1) && es[p].Fund? && s == r - {es[p].op}
    requires Balance(Unspent(coin, es, p, s), sh) + Paid(coin, es, p, s, sh) == Received(coin, es, p, s, sh)
    ensures Balance(Unspent(coin, es, p + 1, r), sh) + Paid(coin, es, p + 1, r, sh) == Received(coin, es, p + 1, r, sh)
  {
    hide Wf, Funded, SpentOps, Balance, Amount;
    var o := es[p].op;
    SpentOpsNext(es, p);
    NotBeforeItsFunding(coin, es, p, r);
    SumsIgnoreUnseen(coin, es, p, r, sh, o);
    if o in r {
      assert s + {o} == r;
      Unseen(coin, es, p, s, o);
      UnspentAfterFund(coin, es, p, s, o);
      BalanceWith(Unspent(coin, es, p, s), sh, o, coin(o));
    } else {
      assert s == r;
      assert Unspent(coin, es, p + 1, r) == Unspent(coin, es, p, r);
    }
  }

  lemma ConservationSpend(coin: OutPoint -> Utxo, es: seq<Event>, p: nat, r: set<OutPoint>, sh: Hash)
    requires Wf(coin, es) && p < |es| && r <= Funded(es, p) && es[p].Spend?
    requires Balance(Unspent(coin, es, p, r), sh) + Paid(coin, es, p, r, sh) == Received(coin, es, p, r, sh)
    ensures Balance(Unspent(coin, es, p + 1, r), sh) + Paid(coin, es, p + 1, r, sh) == Received(coin, es, p + 1, r, sh)
  {
    hide Wf, Funded, SpentOps, Balance, Amount, Meaning, Apply;
    var o := es[p].op;
    SpentOpsNext(es, p);
    if o in r {
      SpendOnMeaning(coin, es, p, r);
      UnspentAfterSpend(coin, es, p, r, o);
      BalanceWithout(Unspent(coin, es, p, r), sh, o);
    } else {
      assert Unspent(coin, es, p + 1, r) == Unspent(coin, es, p, r);
    }
  }

  // Conservation: what a script hash received is what it still holds plus what it paid.
  lemma {:induction false} Conservation(coin: OutPoint -> Utxo, es: seq<Event>, p: nat, r: set<OutPoint>, sh: Hash)
    requires Wf(coin, es) && p <= |es| && r <= Funded(es, p)
    ensures Balance(Unspent(coin, es, p, r), sh) + Paid(coin, es, p, r, sh) == Received(coin, es, p, r, sh)
    ensures Balance(Unspent(coin, es, p, r), sh) <= Received(coin, es, p, r, sh)
  {
    hide Wf, Funded, SpentOps, Balance, Amount, Coins;
    if p > 0 {
      if es[p - 1].Fund? {
        NotBeforeItsFunding(coin, es, p - 1, r);
        Conservation(coin, es, p - 1, r - {es[p - 1].op}, sh);
        ConservationFund(coin, es, p - 1, r, r - {es[p - 1].op}, sh);
      } else {
        FundedBySpend(es, p - 1);
        Conservation(coin, es, p - 1, r, sh);
        ConservationSpend(coin, es, p - 1, r, sh);
      }
    } else {
      NothingAtStart(coin, es, r, sh);
    }
  }

  lemma NothingAtStart(coin: OutPoint -> Utxo, es: seq<Event>, r: set<OutPoint>, sh: Hash)
    requires r <= Funded(es, 0)
    ensures Balance(Unspent(coin, es, 0, r), sh) == 0
  {
    assert Unspent(coin, es, 0, r) == map[];
  }

  // ---- Unspent outputs ----

  // selectScriptHashUnspent joins each unspent row to its tx row and that to its header row.
  predicate JoinsHeader(l: Ledger, header: map<Hash, nat>, t: Hash) {
    t in l.tx && l.tx[t].blockHash in header
  }

  ghost function Listed(l: Ledger, header: map<Hash, nat>, sh: Hash): map<OutPoint, Utxo> {
    map o | o in l.unspent && l.unspent[o].sh == sh && JoinsHeader(l, header, o.txid) :: l.unspent[o]
  }

  ghost function Holding(m: map<OutPoint, Utxo>, sh: Hash): map<OutPoint, Utxo> {
    map o | o in m && m[o].sh == sh :: m[o]
  }

  lemma {:induction false} BalanceOfHolding(m: map<OutPoint, Utxo>, sh: Hash)
    ensures Balance(Holding(m, sh), sh) == Balance(m, sh)
    decreases |m|
  {
    if m == map[] {
      assert Holding(m, sh) == map[];
    } else {
      var o :| o in m;
      BalanceWithout(m, sh, o);
      BalanceOfHolding(m - {o}, sh);
      if m[o].sh == sh {
        BalanceWithout(Holding(m, sh), sh, o);
        assert Holding(m, sh) - {o} == Holding(m - {o}, sh);
      } else {
        assert Holding(m, sh) == Holding(m - {o}, sh);
      }
    }
  }

  lemma EveryUnspentJoins(coin: OutPoint -> Utxo, es: seq<Event>, header: map<Hash, nat>, l: Ledger, o: OutPoint)
    requires Wf(coin, es) && Fits(coin, es, l) && RollbackProof.HeadersCover(es, header) && o in l.unspent
    ensures JoinsHeader(l, header, o.txid)
  {
    hide Wf, Occurs, RowOf;
    var k := FitsRow(coin, es, l, o.txid);
  }

  // The listed outputs of a script hash are all it holds, and their sum is its balance.
  lemma ListedSumIsBalance(coin: OutPoint -> Utxo, es: seq<Event>, header: map<Hash, nat>, l: Ledger, sh: Hash)
    requires Wf(coin, es) && Fits(coin, es, l) && RollbackProof.HeadersCover(es, header)
    ensures Listed(l, header, sh) == Holding(l.unspent, sh) && Balance(Listed(l, header, sh), sh) == Balance(l.index, sh)
  {
    hide Wf, Balance, RollbackProof.HeadersCover;
    forall o | o in l.unspent ensures JoinsHeader(l, header, o.txid) {
      EveryUnspentJoins(coin, es, header, l, o);
    }
    assert Listed(l, header, sh) == Holding(l.unspent, sh);
    BalanceOfHolding(l.unspent, sh);
  }

  // The rows of selectScriptHashUnspent name a transaction and its place, not the output index.
  datatype UnspentRow = UnspentRow(height: nat, txPos: nat, txid: Hash, satoshi: nat)

  function RowFor(l: Ledger, header: map<Hash, nat>, o: OutPoint): UnspentRow
    requires o in l.unspent && JoinsHeader(l, header, o.txid)
  {
    UnspentRow(header[l.tx[o.txid].blockHash], l.tx[o.txid].pos, o.txid, l.unspent[o].satoshi)
  }

  // A result of selectScriptHashUnspent: one row for each joined output, ordered by (height, pos).
  ghost predicate IsListing(l: Ledger, header: map<Hash, nat>, sh: Hash, ops: seq<OutPoint>, rows: seq<UnspentRow>) {
    && |rows| == |ops|
    && (forall i, j :: 0 <= i < j < |ops| ==> ops[i] != ops[j])
    && (forall o :: o in ops <==> o in Listed(l, header, sh))
    && (forall i :: 0 <= i < |ops| ==> ops[i] in Listed(l, header, sh) && rows[i] == RowFor(l, header, ops[i]))
    && (forall i, j :: 0 <= i < j < |ops| ==> ops[i] in Listed(l, header, sh) && ops[j] in Listed(l, header, sh)
                                              && !Before(l, header, ops[j].txid, ops[i].txid))
  }

  function Total(rows: seq<UnspentRow>): nat {
    if rows == [] then 0 else Total(rows[..|rows| - 1]) + rows[|rows| - 1].satoshi
  }

  lemma {:induction false} TotalIsBalance(m: map<OutPoint, Utxo>, sh: Hash, ops: seq<OutPoint>, rows: seq<UnspentRow>)
    requires |rows| == |ops| && forall i, j :: 0 <= i < j < |ops| ==> ops[i] != ops[j]
    requires forall o :: o in ops <==> o in m
    requires forall i :: 0 <= i < |ops| ==> m[ops[i]].sh == sh && rows[i].satoshi == m[ops[i]].satoshi
    ensures Total(rows) == Balance(m, sh)
    decreases |ops|
  {
    if ops == [] {
      assert m == map[] by {
        forall o ensures o !in m { assert o !in ops; }
      }
    } else {
      var n := |ops| - 1;
      var o := ops[n];
      assert o in ops;
      forall x ensures x in ops[..n] <==> x in m - {o} {
        assert x in ops <==> x in ops[..n] || x == o;
      }
      TotalIsBalance(m - {o}, sh, ops[..n], rows[..n]);
      BalanceWithout(m, sh, o);
    }
  }

  // The amounts a client is shown for a script hash add up to the balance in the cache: no unspent
  // row is lost in the joins.
  lemma ListingTotalIsBalance(coin: OutPoint -> Utxo, es: seq<Event>, header: map<Hash, nat>, l: Ledger, sh: Hash, ops: seq<OutPoint>, rows: seq<UnspentRow>)
    requires Wf(coin, es) && Fits(coin, es, l) && RollbackProof.HeadersCover(es, header)
    requires IsListing(l, header, sh, ops, rows)
    ensures Total(rows) == Balance(l.index, sh)
  {
    hide Wf, Fits, Before, Balance, Total, RollbackProof.HeadersCover;
    TotalIsBalance(Listed(l, header, sh), sh, ops, rows);
    ListedSumIsBalance(coin, es, header, l, sh);
  }

  // Row i shows output ops[i]: the block and position of the transaction that creates it, its txid and its
  // amount; all the script hash holds is there, in the order of the chain.
  ghost predicate ListingOnChain(env: Env, chain: seq<Hash>, l: Ledger, sh: Hash, ops: seq<OutPoint>, rows: seq<UnspentRow>) {
    && |rows| == |ops| && (forall i, j :: 0 <= i < j < |ops| ==> ops[i] != ops[j])
    && (forall o :: o in ops <==> o in l.unspent && l.unspent[o].sh == sh)
    && (forall i :: 0 <= i < |rows| ==>
          rows[i].txid == ops[i].txid && CreatedAt(env, chain, rows[i].height, rows[i].txPos, ops[i], Utxo(rows[i].satoshi, sh)))
    && (forall i, j :: 0 <= i < j < |rows| ==>
          rows[i].height < rows[j].height || (rows[i].height == rows[j].height && rows[i].txPos <= rows[j].txPos))
  }

  // The row of an unspent output stands where the transaction that creates it does.
  lemma UnspentPlace(env: Env, coin: OutPoint -> Utxo, chain: seq<Hash>, header: map<Hash, nat>, l: Ledger, o: OutPoint)
    requires |chain| >= 1 && Wf(coin, All(env, chain)) && Fits(coin, All(env, chain), l)
    requires RollbackProof.HeadersCover(All(env, chain), header) && o in l.unspent
    ensures JoinsHeader(l, header, o.txid)
    ensures CreatedAt(env, chain, header[l.tx[o.txid].blockHash], l.tx[o.txid].pos, o, l.unspent[o])
  {
    hide All, SpentOps, SpendHeight, Row, RowOf, Occurs;
    var es := All(env, chain);
    var k :| 0 <= k < |es| && es[k].Fund? && es[k].op == o;
    var x := FitsRow(coin, es, l, o.txid);
    EventIsOnChain(env, chain, k);
    assert es[k].txid == es[x].txid;
  }

  lemma ListingIsOnChain(env: Env, coin: OutPoint -> Utxo, chain: seq<Hash>, header: map<Hash, nat>, l: Ledger, sh: Hash, ops: seq<OutPoint>, rows: seq<UnspentRow>)
    requires |chain| >= 1 && Wf(coin, All(env, chain)) && Fits(coin, All(env, chain), l)
    requires RollbackProof.HeadersCover(All(env, chain), header) && IsListing(l, header, sh, ops, rows)
    ensures ListingOnChain(env, chain, l, sh, ops, rows)
  {
    hide Wf, Fits, All, RollbackProof.HeadersCover, CreatedAt;
    forall o | o in l.unspent
      ensures JoinsHeader(l, header, o.txid) && CreatedAt(env, chain, header[l.tx[o.txid].blockHash], l.tx[o.txid].pos, o, l.unspent[o])
    {
      UnspentPlace(env, coin, chain, header, l, o);
    }
  }

  // GetScriptHashBalance answers 0 for a script hash that is not watched.
  ghost function Answer(ks: Keys, l: Ledger, sh: Hash): nat {
    if sh in ks.watch then Balance(l.index, sh) % TWO_64 else 0
  }

  lemma {:induction false} NothingHeld(m: map<OutPoint, Utxo>, sh: Hash)
    requires forall o :: o in m ==> m[o].sh != sh
    ensures Balance(m, sh) == 0
    decreases |m|
  {
    if m != map[] {
      var o :| o in m;
      BalanceWithout(m, sh, o);
      NothingHeld(m - {o}, sh);
    }
  }

  // The answer is what the listing adds up to if and only if the script hash is watched, or the listing
  // adds up to nothing.
  lemma AnswerIff(coin: OutPoint -> Utxo, es: seq<Event>, header: map<Hash, nat>, l: Ledger, ks: Keys, sh: Hash, ops: seq<OutPoint>, rows: seq<UnspentRow>)
    requires Wf(coin, es) && Fits(coin, es, l) && RollbackProof.HeadersCover(es, header)
    requires IsListing(l, header, sh, ops, rows)
    ensures Answer(ks, l, sh) == Total(rows) % TWO_64 <==> sh in ks.watch || Total(rows) % TWO_64 == 0
  {
    hide Wf, Fits, Balance, Total, RollbackProof.HeadersCover, IsListing;
    ListingTotalIsBalance(coin, es, header, l, sh, ops, rows);
  }

  // So it is when every output the script hash holds is watched.
  lemma AnswerIsTotal(coin: OutPoint -> Utxo, es: seq<Event>, header: map<Hash, nat>, l: Ledger, ks: Keys, sh: Hash, ops: seq<OutPoint>, rows: seq<UnspentRow>)
    requires Wf(coin, es) && Fits(coin, es, l) && RollbackProof.HeadersCover(es, header)
    requires forall o :: o in l.unspent && l.unspent[o].sh == sh ==> sh in ks.watch
    requires IsListing(l, header, sh, ops, rows)
    ensures Answer(ks, l, sh) == Total(rows) % TWO_64
  {
    hide Wf, Balance, Total, RollbackProof.HeadersCover, IsListing;
    AnswerIff(coin, es, header, l, ks, sh, ops, rows);
    if sh !in ks.watch {
      ListingTotalIsBalance(coin, es, header, l, sh, ops, rows);
      NothingHeld(l.unspent, sh);
    }
  }

  // ---- Histories ----

  // The transactions the history query joins for a script hash.
  function HistoryTxs(l: Ledger, header: map<Hash, nat>, sh: Hash): set<Hash> {
    set t | t in l.tx && (sh, t) in l.sptx && JoinsHeader(l, header, t)
  }

  // ORDER BY height, pos
  predicate Before(l: Ledger, header: map<Hash, nat>, a: Hash, b: Hash)
    requires JoinsHeader(l, header, a) && JoinsHeader(l, header, b)
  {
    var ha, hb := header[l.tx[a].blockHash], header[l.tx[b].blockHash];
    ha < hb || (ha == hb && l.tx[a].pos < l.tx[b].pos)
  }

  function TxidsOf(hist: seq<TxData>): (ids: seq<Hash>)
    ensures |ids| == |hist|
    ensures forall i :: 0 <= i < |hist| ==> ids[i] == hist[i].txid
  {
    seq(|hist|, i requires 0 <= i < |hist| => hist[i].txid)
  }

  // A result of selectScriptHashHistory: each joined transaction once, in order.
  ghost predicate IsHistory(l: Ledger, header: map<Hash, nat>, sh: Hash, hist: seq<TxData>) {
    && (forall i :: 0 <= i < |hist| ==>
          hist[i].txid in HistoryTxs(l, header, sh) && hist[i].height == header[l.tx[hist[i].txid].blockHash])
    && (forall t :: t in HistoryTxs(l, header, sh) ==> t in TxidsOf(hist))
    && (forall i, j :: 0 <= i < j < |hist| ==>
          hist[i].txid != hist[j].txid && !Before(l, header, hist[j].txid, hist[i].txid))
  }

  // On a scanned chain the joined transactions of a script hash are exactly those that fund it or
  // spend one of its recognised outputs.
  lemma HistoryIsExact(coin: OutPoint -> Utxo, es: seq<Event>, header: map<Hash, nat>, p: nat, r: set<OutPoint>, sh: Hash, t: Hash)
    requires Wf(coin, es) && p <= |es| && RollbackProof.HeadersCover(es, header)
    ensures t in HistoryTxs(Meaning(coin, es, p, r), header, sh)
            <==> exists k :: 0 <= k < p && es[k].txid == t && es[k].op in r && coin(es[k].op).sh == sh
  {
    hide Wf;
    if k :| 0 <= k < p && es[k].txid == t && es[k].op in r && coin(es[k].op).sh == sh {
      RowOfAt(coin, es, k);
      assert (coin(es[k].op).sh, es[k].txid) in ScriptTxs(coin, es, p, r);
    }
  }

  // A listed transaction has its block's height and its own place in the block.
  lemma HistoryPlace(env: Env, coin: OutPoint -> Utxo, chain: seq<Hash>, header: map<Hash, nat>, l: Ledger, t: Hash) returns (bh: Hash)
    requires |chain| >= 1 && Wf(coin, All(env, chain)) && Fits(coin, All(env, chain), l)
    requires RollbackProof.HeadersCover(All(env, chain), header) && t in l.tx
    ensures l.tx[t].blockHash == bh && bh in header && StandsAt(env, chain, header[bh], l.tx[t].pos, t) && chain[header[bh]] == bh
  {
    hide Wf;
    var x := FitsRow(coin, All(env, chain), l, t);
    EventIsOnChain(env, chain, x);
    bh := All(env, chain)[x].row.blockHash;
  }

  // Entry a's transaction stands before b's: in a lower block, or earlier in the same block.
  ghost predicate Earlier(env: Env, chain: seq<Hash>, a: TxData, b: TxData) {
    exists p, q :: StandsAt(env, chain, a.height, p, a.txid) && StandsAt(env, chain, b.height, q, b.txid)
                   && (a.height < b.height || (a.height == b.height && p < q))
  }

  ghost predicate HasPlace(env: Env, chain: seq<Hash>, entry: TxData) {
    exists p :: StandsAt(env, chain, entry.height, p, entry.txid)
  }

  // Each entry names a transaction of the block at its height, in the order of the chain.
  ghost predicate HistoryOnChain(env: Env, chain: seq<Hash>, hist: seq<TxData>) {
    && (forall i :: 0 <= i < |hist| ==> HasPlace(env, chain, hist[i]))
    && forall i, j :: 0 <= i < j < |hist| ==> Earlier(env, chain, hist[i], hist[j])
  }

  // On a stored chain a history is strictly increasing in (height, position), and the heights and
  // positions are those of the chain's blocks.
  lemma HistoryIsStrict(env: Env, coin: OutPoint -> Utxo, chain: seq<Hash>, header: map<Hash, nat>, l: Ledger, sh: Hash, hist: seq<TxData>, i: nat, j: nat)
    requires |chain| >= 1 && Wf(coin, All(env, chain)) && Fits(coin, All(env, chain), l)
    requires RollbackProof.HeadersCover(All(env, chain), header)
    requires IsHistory(l, header, sh, hist) && i < j < |hist|
    ensures Before(l, header, hist[i].txid, hist[j].txid)
    ensures Earlier(env, chain, hist[i], hist[j])
  {
    hide Wf, Fits, All, RollbackProof.HeadersCover;
    var a := HistoryPlace(env, coin, chain, header, l, hist[i].txid);
    var b := HistoryPlace(env, coin, chain, header, l, hist[j].txid);
  }

  lemma EntryJoins(l: Ledger, header: map<Hash, nat>, sh: Hash, hist: seq<TxData>, i: nat)
    requires IsHistory(l, header, sh, hist) && i < |hist|
    ensures JoinsHeader(l, header, hist[i].txid) && hist[i].height == header[l.tx[hist[i].txid].blockHash]
  {
  }

  lemma HistoryIsOnChain(env: Env, coin: OutPoint -> Utxo, chain: seq<Hash>, header: map<Hash, nat>, l: Ledger, sh: Hash, hist: seq<TxData>)
    requires |chain| >= 1 && Wf(coin, All(env, chain)) && Fits(coin, All(env, chain), l)
    requires RollbackProof.HeadersCover(All(env, chain), header) && IsHistory(l, header, sh, hist)
    ensures HistoryOnChain(env, chain, hist)
  {
    hide Wf, Fits, All, RollbackProof.HeadersCover, Earlier, Before, StandsAt, IsHistory;
    forall i | 0 <= i < |hist| ensures HasPlace(env, chain, hist[i]) {
      EntryJoins(l, header, sh, hist, i);
      var a := HistoryPlace(env, coin, chain, header, l, hist[i].txid);
    }
    forall i, j | 0 <= i < j < |hist| ensures Earlier(env, chain, hist[i], hist[j]) {
      HistoryIsStrict(env, coin, chain, header, l, sh, hist, i, j);
    }
  }

  // ---- One history ----

  lemma HeadNotInTail(lt: (Hash, Hash) -> bool, a: seq<Hash>)
    requires a != [] && forall x, y :: x in a && y in a ==> !(lt(x, y) && lt(y, x))
    requires forall i, j :: 0 <= i < j < |a| ==> lt(a[i], a[j])
    ensures a[0] !in a[1..]
  {
    forall k | 1 <= k < |a| ensures a[k] != a[0] {
      assert lt(a[0], a[k]) && a[0] in a && a[k] in a;
    }
  }

  lemma HasMember(s: seq<Hash>)
    ensures s != [] ==> exists x :: x in s
  {
    if s != [] { assert s[0] in s; }
  }

  lemma SameHead(lt: (Hash, Hash) -> bool, a: seq<Hash>, b: seq<Hash>)
    requires forall x, y :: x in a && y in a ==> !(lt(x, y) && lt(y, x))
    requires forall i, j :: 0 <= i < j < |a| ==> lt(a[i], a[j])
    requires forall i, j :: 0 <= i < j < |b| ==> lt(b[i], b[j])
    requires a != [] && b != [] && a[0] in b && b[0] in a
    ensures a[0] == b[0]
  {
    var i :| 0 <= i < |a| && a[i] == b[0];
    var j :| 0 <= j < |b| && b[j] == a[0];
  }

  lemma {:induction false} SortedListsAgree(lt: (Hash, Hash) -> bool, a: seq<Hash>, b: seq<Hash>)
    requires forall x, y :: x in a && y in a ==> !(lt(x, y) && lt(y, x))
    requires forall i, j :: 0 <= i < j < |a| ==> lt(a[i], a[j])
    requires forall i, j :: 0 <= i < j < |b| ==> lt(b[i], b[j])
    requires forall x :: x in a <==> x in b
    ensures a == b
  {
    HasMember(a);
    HasMember(b);
    if a != [] {
      assert a[0] in a && a[0] in b;
      SameHead(lt, a, b);
      HeadNotInTail(lt, a);
      HeadNotInTail(lt, b);
      forall x ensures x in a[1..] <==> x in b[1..] {
        assert x in a <==> x == a[0] || x in a[1..];
        assert x in b <==> x == b[0] || x in b[1..];
      }
      SortedListsAgree(lt, a[1..], b[1..]);
      assert a == [a[0]] + a[1..] && b == [b[0]] + b[1..];
    }
  }

  // The history of a script hash on a stored chain is one list.
  lemma HistoryIsUnique(env: Env, coin: OutPoint -> Utxo, chain: seq<Hash>, header: map<Hash, nat>, l: Ledger, sh: Hash, a: seq<TxData>, b: seq<TxData>)
    requires |chain| >= 1 && Wf(coin, All(env, chain)) && Fits(coin, All(env, chain), l)
    requires RollbackProof.HeadersCover(All(env, chain), header)
    requires IsHistory(l, header, sh, a) && IsHistory(l, header, sh, b)
    ensures a == b
  {
    hide Wf, Fits, All, RollbackProof.HeadersCover;
    var lt := (x: Hash, y: Hash) => JoinsHeader(l, header, x) && JoinsHeader(l, header, y) && Before(l, header, x, y);
    forall i, j | 0 <= i < j < |a| ensures lt(TxidsOf(a)[i], TxidsOf(a)[j]) {
      HistoryIsStrict(env, coin, chain, header, l, sh, a, i, j);
    }
    forall i, j | 0 <= i < j < |b| ensures lt(TxidsOf(b)[i], TxidsOf(b)[j]) {
      HistoryIsStrict(env, coin, chain, header, l, sh, b, i, j);
    }
    SortedListsAgree(lt, TxidsOf(a), TxidsOf(b));
    forall i | 0 <= i < |a| ensures a[i] == b[i] {
      assert TxidsOf(a)[i] == TxidsOf(b)[i];
    }
  }

  // ---- Notifications ----

  ghost predicate Closed(l: Ledger) {
    forall x :: x in l.sptx ==> x.1 in l.tx
  }

  // From l to m nothing was lost, and only script hashes in updated gained transactions.
  ghost predicate Grows(l: Ledger, m: Ledger, updated: set<Hash>) {
    && (forall t :: t in l.tx ==> t in m.tx && m.tx[t] == l.tx[t])
    && l.sptx <= m.sptx
    && (forall x :: x in m.sptx && x !in l.sptx ==> x.0 in updated)
  }

  lemma StepGrows(env: Env, l: Ledger, s: Scan, e: Event)
    requires LabelsInRange(s.keys) && Closed(s.ledger) && Grows(l, s.ledger, s.updated)
    ensures Closed(Step(env, s, e).ledger) && Grows(l, Step(env, s, e).ledger, Step(env, s, e).updated)
  {
    hide Recognise, StoreUpdate;
  }

  lemma {:induction false} RunGrows(env: Env, s: Scan, es: seq<Event>, from: nat, upto: nat)
    requires from <= upto <= |es| && LabelsInRange(s.keys) && Closed(s.ledger)
    ensures Closed(Run(env, s, es, from, upto).ledger)
    ensures Grows(s.ledger, Run(env, s, es, from, upto).ledger, Run(env, s, es, from, upto).updated)
    decreases upto
  {
    hide Step;
    if from < upto {
      RunGrows(env, s, es, from, upto - 1);
      StepGrows(env, s.ledger, Run(env, s, es, from, upto - 1), es[upto - 1]);
    }
  }

  // A script hash that is not notified has the history it had before: the notified set covers every
  // change.
  lemma UnnotifiedKeepsHistory(l: Ledger, m: Ledger, updated: set<Hash>, header: map<Hash, nat>, sh: Hash, hist: seq<TxData>)
    requires Closed(l) && Grows(l, m, updated) && sh !in updated
    ensures IsHistory(l, header, sh, hist) <==> IsHistory(m, header, sh, hist)
  {
    assert HistoryTxs(l, header, sh) == HistoryTxs(m, header, sh);
  }

  // processBlock: a script hash outside the set it notifies has exactly the histories it had before.
  lemma BlockNotificationsSuffice(env: Env, s: Scan, bh: Hash, t: nat, header: map<Hash, nat>, sh: Hash, hist: seq<TxData>)
    requires LabelsInRange(s.keys) && Closed(s.ledger)
    requires sh !in System.ProcessBlock(env, s, bh, t).updated
    ensures Closed(System.ProcessBlock(env, s, bh, t).ledger)
    ensures IsHistory(s.ledger, header, sh, hist) <==> IsHistory(System.ProcessBlock(env, s, bh, t).ledger, header, sh, hist)
  {
    hide IsHistory, Run, Closed, Grows;
    var es := BlockEvents(env, bh, t);
    RunGrows(env, s.(updated := {}), es, 0, |es|);
    var m := Run(env, s.(updated := {}), es, 0, |es|);
    UnnotifiedKeepsHistory(s.ledger, m.ledger, m.updated, header, sh, hist);
  }

  // Whoever is notified has something of the block in its history.
  lemma {:induction false} RunNotifies(env: Env, s: Scan, es: seq<Event>, from: nat, upto: nat, sh: Hash) returns (k: nat)
    requires from <= upto <= |es| && LabelsInRange(s.keys) && sh !in s.updated && sh in Run(env, s, es, from, upto).updated
    ensures from <= k < upto && (sh, es[k].txid) in Run(env, s, es, from, upto).ledger.sptx
    decreases upto
  {
    hide Step;
    var m, e := Run(env, s, es, from, upto - 1), es[upto - 1];
    StepNotifies(env, m, e, sh);
    if sh in m.updated {
      k := RunNotifies(env, s, es, from, upto - 1, sh);
    } else {
      k := upto - 1;
    }
  }

  lemma StepNotifies(env: Env, s: Scan, e: Event, sh: Hash)
    requires LabelsInRange(s.keys)
    ensures s.ledger.sptx <= Step(env, s, e).ledger.sptx
    ensures sh in Step(env, s, e).updated ==> sh in s.updated || (sh, e.txid) in Step(env, s, e).ledger.sptx
  {
    hide Recognise, StoreUpdate;
  }

  // processBlock notifies no script hash without a transaction of that very block in its history.
  lemma NotifiedHasCause(env: Env, s: Scan, bh: Hash, t: nat, sh: Hash) returns (p: nat)
    requires LabelsInRange(s.keys) && sh in System.ProcessBlock(env, s, bh, t).updated
    ensures p < |env.blockOf(bh).txs| && (sh, env.blockOf(bh).txs[p].txid) in System.ProcessBlock(env, s, bh, t).ledger.sptx
  {
    hide Run, TxsEvents, OutEvents, InEvents;
    var es := BlockEvents(env, bh, t);
    var k := RunNotifies(env, s.(updated := {}), es, 0, |es|, sh);
    p := EventOfTx(env, bh, t, |env.blockOf(bh).txs|, k);
    TxidOfEvent(env, bh, t, p, k);
  }

  // Blocks one after another, and every script hash notified on the way.
  ghost function Notified(env: Env, s: Scan, chain: seq<Hash>, from: nat, upto: nat): set<Hash>
    requires from <= upto < |chain| && LabelsInRange(s.keys)
    decreases upto
  {
    if from == upto then {}
    else Notified(env, s, chain, from, upto - 1)
         + System.ProcessBlock(env, System.ScanBlocks(env, s, chain, from, upto - 1), chain[upto], upto).updated
  }

  lemma {:induction false} BlocksNotify(env: Env, s: Scan, chain: seq<Hash>, from: nat, upto: nat, header: map<Hash, nat>, sh: Hash, hist: seq<TxData>)
    requires from <= upto < |chain| && LabelsInRange(s.keys) && Closed(s.ledger) && sh !in Notified(env, s, chain, from, upto)
    ensures Closed(System.ScanBlocks(env, s, chain, from, upto).ledger)
    ensures IsHistory(s.ledger, header, sh, hist) <==> IsHistory(System.ScanBlocks(env, s, chain, from, upto).ledger, header, sh, hist)
    decreases upto
  {
    hide IsHistory, Closed, System.ProcessBlock, LabelsInRange;
    if from < upto {
      BlocksNotify(env, s, chain, from, upto - 1, header, sh, hist);
      var m := System.ScanBlocks(env, s, chain, from, upto - 1);
      BlockNotificationsSuffice(env, m, chain[upto], upto, header, sh, hist);
    }
  }

  // ---- Reorgs and statuses: processReorg notifies nobody ----

  lemma RolledBackTxs(l: Ledger, header: map<Hash, nat>, h: nat, sh: Hash, t: Hash)
    ensures t in HistoryTxs(Rollback(l, header, h), HeadersUpTo(header, h), sh)
            <==> t in HistoryTxs(l, header, sh) && header[l.tx[t].blockHash] <= h
  {
    hide UnspentAt, SpentUpTo;
  }

  lemma RolledBackRows(l: Ledger, header: map<Hash, nat>, h: nat, t: Hash)
    requires t in Rollback(l, header, h).tx
    ensures t in l.tx && Rollback(l, header, h).tx[t] == l.tx[t]
  {
    hide UnspentAt, SpentUpTo;
  }

  // If nothing in a history lies above the height, the rollback leaves its script hash the same
  // histories.
  lemma RollbackKeepsHistories(l: Ledger, header: map<Hash, nat>, h: nat, sh: Hash, hist: seq<TxData>)
    requires forall t :: t in HistoryTxs(l, header, sh) ==> header[l.tx[t].blockHash] <= h
    ensures IsHistory(Rollback(l, header, h), HeadersUpTo(header, h), sh, hist) <==> IsHistory(l, header, sh, hist)
  {
    hide Rollback, HistoryTxs, HeadersUpTo, Before;
    var l1, header1 := Rollback(l, header, h), HeadersUpTo(header, h);
    forall t ensures t in HistoryTxs(l1, header1, sh) <==> t in HistoryTxs(l, header, sh) {
      RolledBackTxs(l, header, h, sh, t);
    }
    assert HistoryTxs(l1, header1, sh) == HistoryTxs(l, header, sh);
    forall t | t in HistoryTxs(l, header, sh)
      ensures JoinsHeader(l1, header1, t) && JoinsHeader(l, header, t) && l1.tx[t] == l.tx[t] && header1[l.tx[t].blockHash] == header[l.tx[t].blockHash]
    {
      HistoryJoins(l1, header1, sh, t);
      HistoryJoins(l, header, sh, t);
      RolledBackRows(l, header, h, t);
      HeaderKept(header, h, l.tx[t].blockHash);
    }
    SameHistories(l, header, l1, header1, sh, hist);
  }

  lemma HeaderKept(header: map<Hash, nat>, h: nat, b: Hash)
    requires b in HeadersUpTo(header, h)
    ensures b in header && HeadersUpTo(header, h)[b] == header[b]
  {
  }

  // Histories depend on the joined transactions, their heights and their places only.
  lemma SameHistories(l: Ledger, header: map<Hash, nat>, l1: Ledger, header1: map<Hash, nat>, sh: Hash, hist: seq<TxData>)
    requires HistoryTxs(l1, header1, sh) == HistoryTxs(l, header, sh)
    requires forall t :: t in HistoryTxs(l, header, sh) ==>
               JoinsHeader(l1, header1, t) && JoinsHeader(l, header, t) && l1.tx[t] == l.tx[t] && header1[l.tx[t].blockHash] == header[l.tx[t].blockHash]
    ensures IsHistory(l1, header1, sh, hist) <==> IsHistory(l, header, sh, hist)
  {
    hide HistoryTxs;
  }

  lemma HistoryJoins(l: Ledger, header: map<Hash, nat>, sh: Hash, t: Hash)
    requires t in HistoryTxs(l, header, sh)
    ensures JoinsHeader(l, header, t)
  {
  }

  // A subscriber of sh keeps the status of hist through a rollback to height h. It is still the status
  // of the current history, hist1, if and only if nothing in hist lies above h.
  lemma StaleIff(env: Env, coin: OutPoint -> Utxo, chain: seq<Hash>, header: map<Hash, nat>, l: Ledger, h: nat, sh: Hash, hist: seq<TxData>, hist1: seq<TxData>)
    requires |chain| >= 1 && Wf(coin, All(env, chain)) && Fits(coin, All(env, chain), l)
    requires RollbackProof.HeadersCover(All(env, chain), header)
    requires IsHistory(l, header, sh, hist) && IsHistory(Rollback(l, header, h), HeadersUpTo(header, h), sh, hist1)
    ensures hist1 == hist <==> forall i :: 0 <= i < |hist| ==> hist[i].height <= h
  {
    hide Wf, Fits, All, Rollback, RollbackProof.HeadersCover, HistoryTxs, Before;
    forall t | t in HistoryTxs(l, header, sh) ensures JoinsHeader(l, header, t) {
      HistoryJoins(l, header, sh, t);
    }
    if forall i :: 0 <= i < |hist| ==> hist[i].height <= h {
      forall t | t in HistoryTxs(l, header, sh) ensures header[l.tx[t].blockHash] <= h {
        var i :| 0 <= i < |hist| && TxidsOf(hist)[i] == t;
      }
      RollbackKeepsHistories(l, header, h, sh, hist1);
      HistoryIsUnique(env, coin, chain, header, l, sh, hist, hist1);
    }
    if hist1 == hist {
      forall i | 0 <= i < |hist| ensures hist[i].height <= h {
        RolledBackTxs(l, header, h, sh, hist[i].txid);
      }
    }
  }

  // New headers alone change no history: every row's block was stored already.
  lemma NewHeadersKeepHistories(coin: OutPoint -> Utxo, es: seq<Event>, l: Ledger, header: map<Hash, nat>, more: map<Hash, nat>, sh: Hash, hist: seq<TxData>)
    requires Wf(coin, es) && Fits(coin, es, l) && RollbackProof.HeadersCover(es, header)
    requires forall b :: b in header ==> b in more && more[b] == header[b]
    ensures IsHistory(l, header, sh, hist) <==> IsHistory(l, more, sh, hist)
  {
    hide Wf, RowOf, Occurs, SpendHeight, SpentOps;
    forall t | t in l.tx ensures l.tx[t].blockHash in header {
      var k := FitsRow(coin, es, l, t);
    }
    assert HistoryTxs(l, header, sh) == HistoryTxs(l, more, sh);
    SameHistories(l, more, l, header, sh, hist);
  }

  // ---- Amounts and proofs ----

  // The uint64 sum is the true balance if and only if what was received less what was paid fits.
  lemma BalanceWrapsIff(coin: OutPoint -> Utxo, es: seq<Event>, p: nat, r: set<OutPoint>, sh: Hash)
    requires Wf(coin, es) && p <= |es| && r <= Funded(es, p)
    ensures Paid(coin, es, p, r, sh) <= Received(coin, es, p, r, sh)
    ensures Balance(Meaning(coin, es, p, r).index, sh) % TWO_64 == Received(coin, es, p, r, sh) - Paid(coin, es, p, r, sh)
            <==> Received(coin, es, p, r, sh) - Paid(coin, es, p, r, sh) < TWO_64
  {
    hide Wf, Received, Paid, Balance;
    Conservation(coin, es, p, r, sh);
  }

  // Every tx row carries a proof: its bytes, cut back into hashes, lead from the row's own txid at the
  // row's position to the Merkle root of the row's block.
  lemma StoredProofsStayValid(env: Env, coin: OutPoint -> Utxo, chain: seq<Hash>, l: Ledger, t: Hash, cut: seq<Hash>)
    requires |chain| >= 1 && Wf(coin, All(env, chain)) && Fits(coin, All(env, chain), l)
    requires t in l.tx && Codec.Flatten(cut) == l.tx[t].proof
    ensures var txs := env.blockOf(l.tx[t].blockHash).txs;
            && l.tx[t].pos < |txs| && txs[l.tx[t].pos].txid == t
            && Merkle.Climb(env.pairHash, t, l.tx[t].pos, cut) == Merkle.Root(env.pairHash, Txids(txs))
  {
    hide Wf, Codec.Flatten, Merkle.Climb, Merkle.Root;
    var es := All(env, chain);
    var k := FitsRow(coin, es, l, t);
    EventIsOnChain(env, chain, k);
    RowProofVerifies(env, es[k].row.blockHash, es[k].row.pos, cut);
  }
}
