// The scanning tables as one value, and each SQL statement of repository.go as the change it makes.
module Tables {
  import opened Base

  datatype TxRow = TxRow(blockHash: Hash, pos: nat, proof: seq<byte>)

  datatype SpentRow = SpentRow(utxo: Utxo, height: nat)

  // tx, scriptpubkey_tx, unspent_output and spent_output, with the in-memory utxoIndex beside them.
  datatype Ledger = Ledger(
    tx: map<Hash, TxRow>,
    sptx: set<(Hash, Hash)>,
    unspent: map<OutPoint, Utxo>,
    spent: map<OutPoint, SpentRow>,
    index: map<OutPoint, Utxo>)

  const EMPTY: Ledger := Ledger(map[], {}, map[], map[], map[])

  // INSERT ... WHERE NOT EXISTS, on a table with a primary key
  function PutIfAbsent<K, V>(m: map<K, V>, k: K, v: V): map<K, V> {
    if k in m then m else m[k := v]
  }

  // INSERT INTO tx ... WHERE NOT EXISTS
  function InsertTx(l: Ledger, txid: Hash, row: TxRow): Ledger {
    l.(tx := PutIfAbsent(l.tx, txid, row))
  }

  // INSERT INTO scriptpubkey_tx ... WHERE NOT EXISTS
  function InsertSp(l: Ledger, sh: Hash, txid: Hash): Ledger {
    l.(sptx := l.sptx + {(sh, txid)})
  }

  // INSERT INTO unspent_output ... WHERE NOT EXISTS, then an unconditional write to utxoIndex
  function InsertUnspent(l: Ledger, o: OutPoint, u: Utxo): Ledger {
    l.(unspent := PutIfAbsent(l.unspent, o, u),
       index := l.index[o := u])
  }

  // INSERT INTO spent_output ... WHERE NOT EXISTS, DELETE FROM unspent_output, delete from utxoIndex
  function DeleteUnspent(l: Ledger, o: OutPoint, height: nat): Ledger {
    l.(spent := if o in l.unspent then PutIfAbsent(l.spent, o, SpentRow(l.unspent[o], height)) else l.spent,
       unspent := l.unspent - {o},
       index := l.index - {o})
  }

  // ---- deleteAllSinceBlock ----

  // Transactions joined to a header above the given height.
  function Orphaned(tx: map<Hash, TxRow>, header: map<Hash, nat>, height: nat): set<Hash> {
    set t | t in tx && tx[t].blockHash in header && header[tx[t].blockHash] > height
  }

  function SpentAbove(spent: map<OutPoint, SpentRow>, height: nat): set<OutPoint> {
    set o | o in spent && spent[o].height > height
  }

  // The plain INSERT of the rollback meets no primary key already in unspent_output.
  predicate RollbackAllowed(l: Ledger, height: nat) {
    SpentAbove(l.spent, height) !! l.unspent.Keys
  }

  function TxWithout(tx: map<Hash, TxRow>, gone: set<Hash>): map<Hash, TxRow> {
    tx - gone
  }

  function ScriptTxsWithout(sptx: set<(Hash, Hash)>, gone: set<Hash>): set<(Hash, Hash)> {
    set x | x in sptx && x.1 !in gone
  }

  function SpentUpTo(spent: map<OutPoint, SpentRow>, height: nat): map<OutPoint, SpentRow> {
    spent - SpentAbove(spent, height)
  }

  // Outputs spent above the height come back; outputs of orphaned transactions go.
  function UnspentAt(unspent: map<OutPoint, Utxo>, spent: map<OutPoint, SpentRow>, height: nat, gone: set<Hash>): map<OutPoint, Utxo> {
    var inserted := (map o | o in SpentAbove(spent, height) :: spent[o].utxo) + unspent;
    inserted - set o | o in inserted && o.txid in gone
  }

  // DELETE FROM blockheader WHERE height > h
  function HeadersUpTo(header: map<Hash, nat>, height: nat): map<Hash, nat> {
    header - set b | b in header && header[b] > height
  }

  // The committed effect of deleteAllSinceBlock, followed by reloadCaches.
  function Rollback(l: Ledger, header: map<Hash, nat>, height: nat): Ledger {
    var gone := Orphaned(l.tx, header, height);
    var unspent := UnspentAt(l.unspent, l.spent, height, gone);
    Ledger(TxWithout(l.tx, gone), ScriptTxsWithout(l.sptx, gone), unspent, SpentUpTo(l.spent, height), unspent)
  }
}
