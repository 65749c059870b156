// repository.go: the six tables and the unspent index as an object whose methods change them in
// place, each proved against the table effect it denotes.
module RepositoryModule {
  import opened Base
  import opened Tables
  import opened Scan
  import opened System
  import opened Chain
  import opened Codec
  import opened Queries

  // Rows of scriptpubkey_tx, which has no primary key: the table is a list.
  type SpRow = (Hash, Hash)

  predicate NoDuplicates(rows: seq<SpRow>) {
    forall i, j :: 0 <= i < j < |rows| ==> rows[i] != rows[j]
  }

  function RowSet(rows: seq<SpRow>): set<SpRow> {
    set x | x in rows
  }

  // DELETE FROM scriptpubkey_tx WHERE txid IN gone
  function RowsWithout(rows: seq<SpRow>, gone: set<Hash>): (r: seq<SpRow>)
  {
    if rows == [] then []
    else
      var before := RowsWithout(rows[..|rows| - 1], gone);
      var last := rows[|rows| - 1];
      if last.1 in gone then before else before + [last]
  }

  lemma RowSetAppend(rows: seq<SpRow>, x: SpRow)
    ensures RowSet(rows + [x]) == RowSet(rows) + {x}
  {
  }

  // The INSERT ... SELECT and the DELETE on unspent_output, one after the other.
  lemma InsertThenDelete(unspent: map<OutPoint, Utxo>, spent: map<OutPoint, SpentRow>, height: nat, gone: set<Hash>, inserted: map<OutPoint, Utxo>)
    requires SpentAbove(spent, height) !! unspent.Keys
    requires inserted == unspent + map o | o in SpentAbove(spent, height) :: spent[o].utxo
    ensures inserted - (set o | o in inserted && o.txid in gone) == UnspentAt(unspent, spent, height, gone)
  {
  }

  // deleteAllSinceBlock alone: the index still stands as it was.
  function CommittedRollback(l: Ledger, header: map<Hash, nat>, height: nat): Ledger {
    Rollback(l, header, height).(index := l.index)
  }

  lemma RollbackParts(l: Ledger, header: map<Hash, nat>, height: nat)
    ensures var gone := Orphaned(l.tx, header, height);
            CommittedRollback(l, header, height)
            == Ledger(TxWithout(l.tx, gone), ScriptTxsWithout(l.sptx, gone), UnspentAt(l.unspent, l.spent, height, gone), SpentUpTo(l.spent, height), l.index)
  {
  }

  lemma {:induction false} RowsWithoutKeeps(rows: seq<SpRow>, gone: set<Hash>)
    requires NoDuplicates(rows)
    ensures NoDuplicates(RowsWithout(rows, gone))
    ensures RowSet(RowsWithout(rows, gone)) == ScriptTxsWithout(RowSet(rows), gone)
  {
    if rows != [] {
      var n := |rows| - 1;
      RowsWithoutKeeps(rows[..n], gone);
      RowSetAppend(rows[..n], rows[n]);
      RowSetAppend(RowsWithout(rows[..n], gone), rows[n]);
      var before := RowsWithout(rows[..n], gone);
      assert rows == rows[..n] + [rows[n]];
      forall i | 0 <= i < |before| ensures before[i] != rows[n] {
        assert before[i] in RowSet(before);
        assert before[i] in RowSet(rows[..n]);
      }
    }
  }

  class Repository {
    var header: map<Hash, nat>            // blockheader: hash -> height
    var wallet: map<Hash, WalletRow>
    var tx: map<Hash, TxRow>
    var sptx: seq<SpRow>                  // scriptpubkey_tx
    var unspent: map<OutPoint, Utxo>      // unspent_output
    var spent: map<OutPoint, SpentRow>    // spent_output
    var utxoIndex: map<OutPoint, Utxo>    // in memory

    predicate Valid()
      reads this
    {
      NoDuplicates(sptx)
    }

    function View(): Ledger
      reads this
    {
      Ledger(tx, RowSet(sptx), unspent, spent, utxoIndex)
    }

    // newRepository, over whatever the database holds.
    constructor (header: map<Hash, nat>, wallet: map<Hash, WalletRow>, tx: map<Hash, TxRow>, sptx: seq<SpRow>,
                 unspent: map<OutPoint, Utxo>, spent: map<OutPoint, SpentRow>)
      requires NoDuplicates(sptx)
      ensures Valid() && View() == Ledger(tx, RowSet(sptx), unspent, spent, unspent)
      ensures this.header == header && this.wallet == wallet && this.sptx == sptx
    {
      this.header, this.wallet, this.tx, this.sptx, this.unspent, this.spent := header, wallet, tx, sptx, unspent, spent;
      utxoIndex := map[];
      new;
      LoadUtxoIndex();
      assert map[] + unspent == unspent;
    }

    // loadUtxoIndex: writes every unspent row into the index.
    method LoadUtxoIndex()
      modifies this`utxoIndex
      ensures utxoIndex == old(utxoIndex) + unspent
    {
      var todo := unspent.Keys;
      while todo != {}
        invariant todo <= unspent.Keys
        invariant utxoIndex == old(utxoIndex) + (unspent - todo)
        decreases |todo|
      {
        var o :| o in todo;
        utxoIndex := utxoIndex[o := unspent[o]];
        todo := todo - {o};
      }
      assert unspent - {} == unspent;
    }

    // reloadCaches: empties the index in place and loads it again.
    method ReloadCaches()
      modifies this`utxoIndex
      ensures utxoIndex == unspent
    {
      while utxoIndex != map[]
        decreases |utxoIndex|
      {
        var o :| o in utxoIndex;
        utxoIndex := utxoIndex - {o};
      }
      LoadUtxoIndex();
      assert map[] + unspent == unspent;
    }

    method InsertWalletData(hash: Hash, row: WalletRow) returns (ok: bool)
      modifies this`wallet
      ensures ok == (hash !in old(wallet))
      ensures wallet == if ok then old(wallet)[hash := row] else old(wallet)
    {
      ok := hash !in wallet;
      if ok { wallet := wallet[hash := row]; }
    }

    method InsertBlockHeader(hash: Hash, height: nat) returns (ok: bool)
      modifies this`header
      ensures ok == (hash !in old(header))
      ensures header == if ok then old(header)[hash := height] else old(header)
    {
      ok := hash !in header;
      if ok { header := header[hash := height]; }
    }

    method InsertTransaction(txid: Hash, row: TxRow)
      modifies this`tx
      ensures View() == InsertTx(old(View()), txid, row)
    {
      if txid !in tx { tx := tx[txid := row]; }
    }

    method InsertScriptPubkeyTransaction(sh: Hash, txid: Hash)
      requires Valid()
      modifies this`sptx
      ensures Valid() && View() == InsertSp(old(View()), sh, txid)
    {
      if (sh, txid) !in sptx { sptx := sptx + [(sh, txid)]; }
      assert RowSet(sptx) == old(RowSet(sptx)) + {(sh, txid)};
    }

    method InsertUnspentOutput(o: OutPoint, u: Utxo)
      modifies this`unspent, this`utxoIndex
      ensures View() == InsertUnspent(old(View()), o, u)
    {
      if o !in unspent { unspent := unspent[o := u]; }
      utxoIndex := utxoIndex[o := u];
    }

    method SelectUnspentOutput(o: OutPoint) returns (u: Option<Utxo>)
      ensures u == if o in utxoIndex then Some(utxoIndex[o]) else None
    {
      if o in utxoIndex { return Some(utxoIndex[o]); }
      return None;
    }

    method DeleteUnspentOutput(o: OutPoint, height: nat)
      modifies this`unspent, this`spent, this`utxoIndex
      ensures View() == DeleteUnspent(old(View()), o, height)
    {
      if o in unspent && o !in spent { spent := spent[o := SpentRow(unspent[o], height)]; }
      unspent := unspent - {o};
      utxoIndex := utxoIndex - {o};
    }

    method UpdateWalletIndexes(hash: Hash, nextReceive: nat, nextChange: nat)
      modifies this`wallet
      ensures wallet == if hash in old(wallet)
                        then old(wallet)[hash := old(wallet)[hash].(nextReceive := nextReceive, nextChange := nextChange)]
                        else old(wallet)
    {
      if hash in wallet { wallet := wallet[hash := wallet[hash].(nextReceive := nextReceive, nextChange := nextChange)]; }
    }

    method UpdateWalletHeight(hash: Hash, height: nat)
      modifies this`wallet
      ensures wallet == StoreHeight(old(wallet), hash, height)
    {
      if hash in wallet { wallet := wallet[hash := wallet[hash].(height := height)]; }
    }

    // deleteAllSinceBlock: one transaction, statement by statement; the plain INSERT fails on a
    // primary key that is already there, and then nothing is committed.
    method DeleteAllSinceBlock(height: nat) returns (ok: bool)
      requires Valid()
      modifies this`header, this`wallet, this`tx, this`sptx, this`unspent, this`spent
      ensures Valid() && ok == RollbackAllowed(old(View()), height)
      ensures !ok ==> unchanged(this)
      ensures ok ==> View() == CommittedRollback(old(View()), old(header), height)
      ensures ok ==> wallet == LoweredRows(old(wallet), height)
      ensures ok ==> header == HeadersUpTo(old(header), height)
    {
      hide CommittedRollback, RowsWithout, UnspentAt, TxWithout, SpentUpTo, NoDuplicates, RowSet, ScriptTxsWithout, Orphaned, LoweredRows;
      var tx0, unspent0, spent0, header0 := tx, unspent, spent, header;
      var gone := Orphaned(tx0, header0, height);
      var sptx1 := RowsWithout(sptx, gone);
      RowsWithoutKeeps(sptx, gone);
      var back := SpentAbove(spent0, height);
      if !(back !! unspent0.Keys) {
        return false;
      }
      var unspent1 := unspent0 + map o | o in back :: spent0[o].utxo;
      var spent1 := SpentUpTo(spent0, height);
      InsertThenDelete(unspent0, spent0, height, gone, unspent1);
      var unspent2 := unspent1 - set o | o in unspent1 && o.txid in gone;
      var tx1 := TxWithout(tx0, gone);
      RollbackParts(View(), header0, height);
      sptx, unspent, spent, tx := sptx1, unspent2, spent1, tx1;
      header := HeadersUpTo(header0, height);
      wallet := LoweredRows(wallet, height);
      return true;
    }

    // selectLastBlockHeaderData, on a stored chain: nothing when only genesis is known.
    method SelectLastBlockHeader(ghost chain: seq<Hash>) returns (last: Option<(Hash, nat)>)
      requires Stored(header, chain)
      ensures last == if |chain| == 1 then None else Some((chain[|chain| - 1], |chain| - 1))
    {
      assert |chain| > 1 ==> chain[1] in header;
      if header == map[] {
        return None;
      }
      ghost var tip := chain[|chain| - 1];
      assert |chain| > 1 && tip in header && forall c :: c in header ==> header[c] <= header[tip];
      var b :| b in header && forall c :: c in header ==> header[c] <= header[b];
      return Some((b, header[b]));
    }

    // selectBlockHashesAtHeight, on a stored chain: the hashes from a stored height on.
    method SelectBlockHashesAtHeight(height: nat, limit: nat, ghost chain: seq<Hash>) returns (out: seq<Hash>)
      requires Stored(header, chain)
      ensures out == if 1 <= height < |chain| then chain[height..Min(height + limit, |chain|)] else []
    {
      out := [];
      while |out| < limit && height + |out| in header.Values
        invariant |out| <= limit
        invariant 1 <= height < |chain| ==> height + |out| <= |chain| && out == chain[height..height + |out|]
        invariant !(1 <= height < |chain|) ==> out == []
        decreases limit - |out|
      {
        HeightsAreStored(header, chain, height + |out|);
        var b :| b in header && header[b] == height + |out|;
        assert b == chain[height + |out|];
        out := out + [b];
      }
      if 1 <= height < |chain| && |out| < limit && height + |out| < |chain| {
        HeightsAreStored(header, chain, height + |out|);
        assert false;
      }
    }

    // selectScriptHashBalance: a loop over the index in map order, in uint64 arithmetic.
    method SelectScriptHashBalance(sh: Hash) returns (out: nat)
      ensures out == Balance(utxoIndex, sh) % TWO_64
    {
      hide Balance, Amount;
      out := 0;
      var todo := utxoIndex;
      ghost var total: nat := 0;  // the sum without wrap-around
      while todo != map[]
        invariant forall o :: o in todo ==> o in utxoIndex && todo[o] == utxoIndex[o]
        invariant out == total % TWO_64 && total + Balance(todo, sh) == Balance(utxoIndex, sh)
        decreases |todo|
      {
        var o :| o in todo;
        BalanceWithout(todo, sh, o);
        AmountIs(todo[o], sh);
        if todo[o].sh == sh {
          AddWraps(total, todo[o].satoshi);
          out := (out + todo[o].satoshi) % TWO_64;
          total := total + todo[o].satoshi;
        }
        todo := todo - {o};
      }
      NoBalance(sh);
    }

    // selectScriptHashHistory: one entry for each joining row of scriptpubkey_tx, ordered by (height,
    // pos). That no transaction comes twice is for the table to see to.
    method SelectScriptHashHistory(sh: Hash) returns (hist: seq<TxData>)
      requires Valid()
      ensures IsHistory(View(), header, sh, hist)
      ensures forall i :: 0 <= i < |hist| ==>
                hist[i].txid in tx && tx[hist[i].txid].blockHash in header && hist[i].height == header[tx[hist[i].txid].blockHash]
      ensures forall i, j :: 0 <= i < j < |hist| ==>
                hist[i].height < hist[j].height || (hist[i].height == hist[j].height && tx[hist[i].txid].pos <= tx[hist[j].txid].pos)
    {
      hide Before, PartHistory, IsHistory, NoDuplicates, RowSet;
      var l, bh := View(), header;
      hist := [];
      NoHistory(l, bh, sh);
      var n := 0;
      while n < |sptx|
        invariant 0 <= n <= |sptx| && PartHistory(l, bh, sh, sptx[..n], hist)
      {
        var (rsh, t) := sptx[n];
        if rsh == sh && JoinsHeader(l, bh, t) {
          HistoryMembersJoin(l, bh, sh, sptx[..n], hist);
          var k := 0;
          while k < |hist| && !Before(l, bh, t, hist[k].txid)
            invariant 0 <= k <= |hist|
            invariant forall j :: 0 <= j < k ==> !Before(l, bh, t, hist[j].txid)
          {
            k := k + 1;
          }
          InsertRow(l, bh, sh, sptx, n, hist, k);
          hist := hist[..k] + [TxData(bh[l.tx[t].blockHash], t)] + hist[k..];
        } else {
          SkipRow(l, bh, sh, sptx, n, hist);
        }
        n := n + 1;
      }
      assert sptx[..n] == sptx;
      AllRows(l, bh, sh, sptx, hist);
      HistoryAscends(l, bh, sh, hist);
    }

    // selectScriptHashUnspent: the joined outputs, least (height, pos) first.
    method SelectScriptHashUnspent(sh: Hash) returns (rows: seq<UnspentRow>)
      ensures exists ops :: IsListing(View(), header, sh, ops, rows)
      ensures forall i :: 0 <= i < |rows| ==>
                rows[i].txid in tx && tx[rows[i].txid].blockHash in header
                && rows[i].height == header[tx[rows[i].txid].blockHash] && rows[i].txPos == tx[rows[i].txid].pos
      ensures forall i, j :: 0 <= i < j < |rows| ==>
                rows[i].height < rows[j].height || (rows[i].height == rows[j].height && rows[i].txPos <= rows[j].txPos)
    {
      hide Before, IsListing;
      var l, bh := View(), header;
      var todo := set o | o in unspent && unspent[o].sh == sh && JoinsHeader(l, bh, o.txid);
      rows := [];
      ghost var ops: seq<OutPoint> := [];
      while todo != {}
        invariant PartlyListed(l, bh, sh, todo, ops, rows)
        decreases |todo|
      {
        hide PartlyListed;
        TodoJoins(l, bh, sh, todo, ops, rows);
        var least := LeastOutputExists(l, bh, todo);
        var o :| o in todo && forall u :: u in todo ==> !Before(l, bh, u.txid, o.txid);
        PickNext(l, bh, sh, todo, ops, rows, o);
        rows := rows + [RowFor(l, bh, o)];
        ops := ops + [o];
        todo := todo - {o};
      }
      AllListed(l, bh, sh, ops, rows);
      assert IsListing(View(), header, sh, ops, rows);
      ListingAscends(l, bh, sh, ops, rows);
    }
  }

  // ops and rows list what is not in todo, in order, and nothing in todo belongs before them.
  ghost predicate PartlyListed(l: Ledger, header: map<Hash, nat>, sh: Hash, todo: set<OutPoint>, ops: seq<OutPoint>, rows: seq<UnspentRow>) {
    && (forall o :: o in Listed(l, header, sh) <==> o in todo || o in ops)
    && |rows| == |ops|
    && (forall i :: 0 <= i < |ops| ==> ops[i] !in todo && ops[i] in Listed(l, header, sh) && rows[i] == RowFor(l, header, ops[i]))
    && (forall i, o :: 0 <= i < |ops| && o in todo ==> !Before(l, header, o.txid, ops[i].txid))
    && (forall i, j :: 0 <= i < j < |ops| ==> ops[i] != ops[j] && !Before(l, header, ops[j].txid, ops[i].txid))
  }

  lemma TodoJoins(l: Ledger, header: map<Hash, nat>, sh: Hash, todo: set<OutPoint>, ops: seq<OutPoint>, rows: seq<UnspentRow>)
    requires PartlyListed(l, header, sh, todo, ops, rows)
    ensures forall o :: o in todo ==> o in l.unspent && JoinsHeader(l, header, o.txid)
  {
    forall o | o in todo ensures o in Listed(l, header, sh) {
    }
  }

  lemma PickNext(l: Ledger, header: map<Hash, nat>, sh: Hash, todo: set<OutPoint>, ops: seq<OutPoint>, rows: seq<UnspentRow>, o: OutPoint)
    requires PartlyListed(l, header, sh, todo, ops, rows) && o in todo && o in l.unspent
    requires forall u :: u in todo ==> JoinsHeader(l, header, u.txid)
    requires forall u :: u in todo ==> !Before(l, header, u.txid, o.txid)
    ensures PartlyListed(l, header, sh, todo - {o}, ops + [o], rows + [RowFor(l, header, o)])
  {
    hide Before, Listed, JoinsHeader, RowFor;
  }

  lemma AllListed(l: Ledger, header: map<Hash, nat>, sh: Hash, ops: seq<OutPoint>, rows: seq<UnspentRow>)
    requires PartlyListed(l, header, sh, {}, ops, rows)
    ensures IsListing(l, header, sh, ops, rows)
  {
  }

  lemma LeastOutputExists(l: Ledger, header: map<Hash, nat>, s: set<OutPoint>) returns (o: OutPoint)
    requires s != {} && forall x :: x in s ==> JoinsHeader(l, header, x.txid)
    ensures o in s && forall u :: u in s ==> !Before(l, header, u.txid, o.txid)
  {
    var any :| any in s;
    var ids := set x | x in s :: x.txid;
    assert any.txid in ids;
    var t := LeastExists(l, header, ids);
    o :| o in s && o.txid == t;
  }

  // hist holds the joining rows for sh among these, in order.
  ghost predicate PartHistory(l: Ledger, header: map<Hash, nat>, sh: Hash, rows: seq<SpRow>, hist: seq<TxData>) {
    && InOrder(l, header, hist)
    && (forall i :: 0 <= i < |hist| ==> (sh, hist[i].txid) in rows && hist[i].height == header[l.tx[hist[i].txid].blockHash])
    && (forall t :: (sh, t) in rows && JoinsHeader(l, header, t) ==> t in TxidsOf(hist))
  }

  // ORDER BY height, pos ASC, read off the tables.
  lemma HistoryAscends(l: Ledger, header: map<Hash, nat>, sh: Hash, hist: seq<TxData>)
    requires IsHistory(l, header, sh, hist)
    ensures forall i :: 0 <= i < |hist| ==>
              hist[i].txid in l.tx && l.tx[hist[i].txid].blockHash in header && hist[i].height == header[l.tx[hist[i].txid].blockHash]
    ensures forall i, j :: 0 <= i < j < |hist| ==>
              hist[i].height < hist[j].height || (hist[i].height == hist[j].height && l.tx[hist[i].txid].pos <= l.tx[hist[j].txid].pos)
  {
  }

  lemma ListingAscends(l: Ledger, header: map<Hash, nat>, sh: Hash, ops: seq<OutPoint>, rows: seq<UnspentRow>)
    requires IsListing(l, header, sh, ops, rows)
    ensures forall i :: 0 <= i < |rows| ==>
              rows[i].txid in l.tx && l.tx[rows[i].txid].blockHash in header
              && rows[i].height == header[l.tx[rows[i].txid].blockHash] && rows[i].txPos == l.tx[rows[i].txid].pos
    ensures forall i, j :: 0 <= i < j < |rows| ==>
              rows[i].height < rows[j].height || (rows[i].height == rows[j].height && rows[i].txPos <= rows[j].txPos)
  {
  }

  lemma NoHistory(l: Ledger, header: map<Hash, nat>, sh: Hash)
    ensures PartHistory(l, header, sh, [], [])
  {
  }

  lemma HistoryMembersJoin(l: Ledger, header: map<Hash, nat>, sh: Hash, rows: seq<SpRow>, hist: seq<TxData>)
    requires PartHistory(l, header, sh, rows, hist)
    ensures forall i :: 0 <= i < |hist| ==> JoinsHeader(l, header, hist[i].txid)
  {
  }

  lemma SkipRow(l: Ledger, header: map<Hash, nat>, sh: Hash, rows: seq<SpRow>, n: nat, hist: seq<TxData>)
    requires n < |rows| && PartHistory(l, header, sh, rows[..n], hist)
    requires !(rows[n].0 == sh && JoinsHeader(l, header, rows[n].1))
    ensures PartHistory(l, header, sh, rows[..n + 1], hist)
  {
    hide Before, JoinsHeader;
    assert rows[..n + 1] == rows[..n] + [rows[n]];
  }

  lemma TxidsOfInsert(hist: seq<TxData>, k: nat, e: TxData, t: Hash)
    requires k <= |hist|
    ensures t in TxidsOf(hist[..k] + [e] + hist[k..]) <==> t in TxidsOf(hist) || t == e.txid
  {
    var more := hist[..k] + [e] + hist[k..];
    assert more[k] == e && TxidsOf(more)[k] == e.txid;
    forall i | 0 <= i < |hist| ensures hist[i].txid in TxidsOf(more) {
      var j := if i < k then i else i + 1;
      assert more[j] == hist[i] && TxidsOf(more)[j] == hist[i].txid;
    }
    forall j | 0 <= j < |more| && j != k ensures more[j].txid in TxidsOf(hist) {
      var i := if j < k then j else j - 1;
      assert more[j] == hist[i] && TxidsOf(hist)[i] == hist[i].txid;
    }
    if t in TxidsOf(more) {
      var j :| 0 <= j < |more| && TxidsOf(more)[j] == t;
    }
    if t in TxidsOf(hist) {
      var i :| 0 <= i < |hist| && TxidsOf(hist)[i] == t;
    }
  }

  lemma BeforeAll(l: Ledger, header: map<Hash, nat>, t: Hash, u: Hash, v: Hash)
    requires JoinsHeader(l, header, t) && JoinsHeader(l, header, u) && JoinsHeader(l, header, v)
    requires Before(l, header, t, u) && !Before(l, header, v, u)
    ensures !Before(l, header, v, t)
  {
  }

  lemma BeforeIsStrict(l: Ledger, header: map<Hash, nat>, t: Hash, u: Hash)
    requires JoinsHeader(l, header, t) && JoinsHeader(l, header, u) && Before(l, header, t, u)
    ensures !Before(l, header, u, t)
  {
  }

  // The new row's entry differs from the others and belongs before those from k on.
  lemma RowIsNew(l: Ledger, header: map<Hash, nat>, sh: Hash, rows: seq<SpRow>, n: nat, hist: seq<TxData>, k: nat, i: nat)
    requires n < |rows| && NoDuplicates(rows) && PartHistory(l, header, sh, rows[..n], hist)
    requires rows[n].0 == sh && JoinsHeader(l, header, rows[n].1) && k <= |hist| && i < |hist|
    requires k < |hist| ==> JoinsHeader(l, header, hist[k].txid) && Before(l, header, rows[n].1, hist[k].txid)
    ensures JoinsHeader(l, header, hist[i].txid) && hist[i].txid != rows[n].1 && (i >= k ==> !Before(l, header, hist[i].txid, rows[n].1))
  {
    hide Before, JoinsHeader;
    var m :| 0 <= m < n && rows[..n][m] == (sh, hist[i].txid);
    assert rows[m] != rows[n];
    if i == k {
      BeforeIsStrict(l, header, rows[n].1, hist[k].txid);
    } else if i > k {
      BeforeAll(l, header, rows[n].1, hist[k].txid, hist[i].txid);
    }
  }

  lemma InsertRow(l: Ledger, header: map<Hash, nat>, sh: Hash, rows: seq<SpRow>, n: nat, hist: seq<TxData>, k: nat)
    requires n < |rows| && NoDuplicates(rows) && PartHistory(l, header, sh, rows[..n], hist)
    requires rows[n].0 == sh && JoinsHeader(l, header, rows[n].1) && k <= |hist|
    requires forall j :: 0 <= j < k ==> JoinsHeader(l, header, hist[j].txid) && !Before(l, header, rows[n].1, hist[j].txid)
    requires k < |hist| ==> JoinsHeader(l, header, hist[k].txid) && Before(l, header, rows[n].1, hist[k].txid)
    ensures var t := rows[n].1;
            PartHistory(l, header, sh, rows[..n + 1], hist[..k] + [TxData(header[l.tx[t].blockHash], t)] + hist[k..])
  {
    var t := rows[n].1;
    var e := TxData(header[l.tx[t].blockHash], t);
    hide Before, JoinsHeader, NoDuplicates, TxidsOf, InOrder;
    var more := hist[..k] + [e] + hist[k..];
    assert rows[..n + 1] == rows[..n] + [rows[n]];
    forall i | 0 <= i < |hist|
      ensures JoinsHeader(l, header, hist[i].txid) && hist[i].txid != t && (i >= k ==> !Before(l, header, hist[i].txid, t))
    {
      RowIsNew(l, header, sh, rows, n, hist, k, i);
    }
    forall u ensures u in TxidsOf(more) <==> u in TxidsOf(hist) || u == t {
      TxidsOfInsert(hist, k, e, u);
    }
    InsertKeepsOrder(l, header, hist, e, k);
    forall j | 0 <= j < |more| ensures more[j] == e || more[j] in hist {
    }
  }

  ghost predicate InOrder(l: Ledger, header: map<Hash, nat>, hist: seq<TxData>) {
    (forall i :: 0 <= i < |hist| ==> JoinsHeader(l, header, hist[i].txid))
    && forall i, j :: 0 <= i < j < |hist| ==> hist[i].txid != hist[j].txid && !Before(l, header, hist[j].txid, hist[i].txid)
  }

  lemma InsertKeepsOrder(l: Ledger, header: map<Hash, nat>, hist: seq<TxData>, e: TxData, k: nat)
    requires InOrder(l, header, hist) && k <= |hist| && JoinsHeader(l, header, e.txid)
    requires forall i :: 0 <= i < |hist| ==> hist[i].txid != e.txid
    requires forall j :: 0 <= j < k ==> !Before(l, header, e.txid, hist[j].txid)
    requires forall i :: k <= i < |hist| ==> !Before(l, header, hist[i].txid, e.txid)
    ensures InOrder(l, header, hist[..k] + [e] + hist[k..])
  {
    hide Before, JoinsHeader;
    var more := hist[..k] + [e] + hist[k..];
    forall j | 0 <= j < |more| ensures more[j] == if j < k then hist[j] else if j == k then e else hist[j - 1] {
    }
  }

  // Every row has been visited.
  lemma AllRows(l: Ledger, header: map<Hash, nat>, sh: Hash, rows: seq<SpRow>, hist: seq<TxData>)
    requires PartHistory(l, header, sh, rows, hist) && l.sptx == RowSet(rows)
    ensures IsHistory(l, header, sh, hist)
  {
    hide Before;
  }

  lemma HeightsAreStored(header: map<Hash, nat>, chain: seq<Hash>, t: nat)
    requires Stored(header, chain)
    ensures t in header.Values <==> 1 <= t < |chain|
  {
    if 1 <= t < |chain| { assert chain[t] in header.Keys; }
  }

  lemma AmountIs(u: Utxo, sh: Hash)
    ensures Amount(u, sh) == if u.sh == sh then u.satoshi else 0
  {
  }

  lemma NoBalance(sh: Hash)
    ensures Balance(map[], sh) == 0
  {
  }

  lemma AddWraps(total: nat, x: nat)
    ensures (total % TWO_64 + x) % TWO_64 == (total + x) % TWO_64
  {
    assert total == total / TWO_64 * TWO_64 + total % TWO_64;
    var y := total % TWO_64 + x;
    assert y == y / TWO_64 * TWO_64 + y % TWO_64;
  }

  lemma {:induction false} LeastExists(l: Ledger, header: map<Hash, nat>, s: set<Hash>) returns (t: Hash)
    requires s != {} && forall x :: x in s ==> JoinsHeader(l, header, x)
    ensures t in s && forall u :: u in s ==> !Before(l, header, u, t)
    decreases |s|
  {
    t :| t in s;
    if s != {t} {
      var u := LeastExists(l, header, s - {t});
      if Before(l, header, u, t) {
        t := u;
      } else {
        forall v | v in s && v != t ensures !Before(l, header, v, t) {
          assert !Before(l, header, v, u);
        }
      }
    }
  }
}
