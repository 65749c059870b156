// The scan seen as a list of events, the declarative meaning of the tables over such a list, and
// the proof that one scanning step keeps that meaning - in a first scan and in a rescan alike.
module Oracle {
  import opened Base
  import opened Tables

  // What the scanner meets, in order: each output and each input of each transaction, with the
  // height, txid and tx row of the transaction it belongs to.
  datatype Event =
    | Fund(height: nat, txid: Hash, row: TxRow, op: OutPoint, utxo: Utxo)
    | Spend(height: nat, txid: Hash, row: TxRow, op: OutPoint)

  ghost function Funded(es: seq<Event>, p: nat): set<OutPoint>
    requires p <= |es|
  {
    set k | 0 <= k < p && es[k].Fund? :: es[k].op
  }

  ghost function SpentOps(es: seq<Event>, p: nat): set<OutPoint>
    requires p <= |es|
  {
    set k | 0 <= k < p && es[k].Spend? :: es[k].op
  }

  // A valid chain of events: outputs are created once and before they are spent, a created output
  // is spent once (a coinbase's null input is never created, so it may repeat), a txid stands in
  // one place, and an outpoint fixes its value and script.
  ghost predicate Wf(coin: OutPoint -> Utxo, es: seq<Event>) {
    && (forall j, k :: 0 <= j < |es| && 0 <= k < |es| && es[j].Fund? && es[k].Fund? && es[j].op == es[k].op ==> j == k)
    && (forall j, k :: 0 <= j < |es| && 0 <= k < |es| && es[j].Spend? && es[k].Spend? && es[j].op == es[k].op ==>
          j == k || es[j].op !in Funded(es, |es|))
    && (forall j, k :: 0 <= j < |es| && 0 <= k < |es| && es[j].Fund? && es[k].Spend? && es[j].op == es[k].op ==> j < k)
    && (forall j, k :: 0 <= j < |es| && 0 <= k < |es| && es[j].txid == es[k].txid ==>
          es[j].row == es[k].row && es[j].height == es[k].height)
    && (forall k :: 0 <= k < |es| && es[k].Fund? ==> es[k].utxo == coin(es[k].op) && es[k].op.txid == es[k].txid)
  }

  // ---- The declarative tables: es[..p] has been scanned and the outputs in r were recognised ----

  ghost function SpendHeight(es: seq<Event>, o: OutPoint): nat
    requires o in SpentOps(es, |es|)
  {
    var k :| 0 <= k < |es| && es[k].Spend? && es[k].op == o;
    es[k].height
  }

  ghost predicate Occurs(es: seq<Event>, t: Hash) {
    exists k :: 0 <= k < |es| && es[k].txid == t
  }

  ghost function RowOf(es: seq<Event>, t: Hash): TxRow
    requires Occurs(es, t)
  {
    var k :| 0 <= k < |es| && es[k].txid == t;
    es[k].row
  }

  // Transactions that create or spend a recognised output.
  ghost function Relevant(es: seq<Event>, p: nat, r: set<OutPoint>): set<Hash>
    requires p <= |es|
  {
    set k | 0 <= k < p && es[k].op in r :: es[k].txid
  }

  // Each table is given by its keys: what it says of a key is a fact about the chain.
  ghost predicate AreCoins(coin: OutPoint -> Utxo, ops: set<OutPoint>, m: map<OutPoint, Utxo>) {
    (forall o :: o in m <==> o in ops) && (forall o :: o in m ==> m[o] == coin(o))
  }

  ghost function Coins(coin: OutPoint -> Utxo, ops: set<OutPoint>): (m: map<OutPoint, Utxo>)
    ensures AreCoins(coin, ops, m)
  {
    CoinsExist(coin, ops);
    var m :| AreCoins(coin, ops, m);
    m
  }

  lemma CoinsExist(coin: OutPoint -> Utxo, ops: set<OutPoint>)
    ensures exists m :: AreCoins(coin, ops, m)
  {
    assert AreCoins(coin, ops, map o | o in ops :: coin(o));
  }

  ghost predicate AreSpends(coin: OutPoint -> Utxo, es: seq<Event>, ops: set<OutPoint>, m: map<OutPoint, SpentRow>) {
    && (forall o :: o in m <==> o in ops)
    && (forall o :: o in m ==> o in SpentOps(es, |es|) && m[o] == SpentRow(coin(o), SpendHeight(es, o)))
  }

  ghost function Spends(coin: OutPoint -> Utxo, es: seq<Event>, ops: set<OutPoint>): (m: map<OutPoint, SpentRow>)
    requires ops <= SpentOps(es, |es|)
    ensures AreSpends(coin, es, ops, m)
  {
    SpendsExist(coin, es, ops);
    var m :| AreSpends(coin, es, ops, m);
    m
  }

  lemma SpendsExist(coin: OutPoint -> Utxo, es: seq<Event>, ops: set<OutPoint>)
    requires ops <= SpentOps(es, |es|)
    ensures exists m :: AreSpends(coin, es, ops, m)
  {
    assert AreSpends(coin, es, ops, map o | o in ops :: SpentRow(coin(o), SpendHeight(es, o)));
  }

  ghost predicate AreRows(es: seq<Event>, ts: set<Hash>, m: map<Hash, TxRow>) {
    && (forall t :: t in m <==> t in ts)
    && (forall t :: t in m ==> Occurs(es, t) && m[t] == RowOf(es, t))
  }

  ghost function Rows(es: seq<Event>, ts: set<Hash>): (m: map<Hash, TxRow>)
    requires forall t :: t in ts ==> Occurs(es, t)
    ensures AreRows(es, ts, m)
  {
    RowsExist(es, ts);
    var m :| AreRows(es, ts, m);
    m
  }

  lemma RowsExist(es: seq<Event>, ts: set<Hash>)
    requires forall t :: t in ts ==> Occurs(es, t)
    ensures exists m :: AreRows(es, ts, m)
  {
    assert AreRows(es, ts, map t | t in ts :: RowOf(es, t));
  }

  ghost function Unspent(coin: OutPoint -> Utxo, es: seq<Event>, p: nat, r: set<OutPoint>): map<OutPoint, Utxo>
    requires p <= |es|
  {
    Coins(coin, r - SpentOps(es, p))
  }

  ghost function Spent(coin: OutPoint -> Utxo, es: seq<Event>, p: nat, r: set<OutPoint>): map<OutPoint, SpentRow>
    requires p <= |es|
  {
    Spends(coin, es, r * SpentOps(es, p))
  }

  ghost function ScriptTxs(coin: OutPoint -> Utxo, es: seq<Event>, p: nat, r: set<OutPoint>): set<(Hash, Hash)>
    requires p <= |es|
  {
    set k | 0 <= k < p && es[k].op in r :: (coin(es[k].op).sh, es[k].txid)
  }

  ghost function TxRows(es: seq<Event>, p: nat, r: set<OutPoint>): map<Hash, TxRow>
    requires p <= |es|
  {
    Rows(es, Relevant(es, p, r))
  }

  ghost function Meaning(coin: OutPoint -> Utxo, es: seq<Event>, p: nat, r: set<OutPoint>): Ledger
    requires p <= |es|
  {
    var unspent := Unspent(coin, es, p, r);
    Ledger(TxRows(es, p, r), ScriptTxs(coin, es, p, r), unspent, Spent(coin, es, p, r), unspent)
  }

  // Two descriptions at once: the tables in the middle of a second pass.
  function Union(a: Ledger, b: Ledger): Ledger {
    Ledger(a.tx + b.tx, a.sptx + b.sptx, a.unspent + b.unspent, a.spent + b.spent, a.index + b.index)
  }

  // ---- One step of the scanner on the tables (processOutput and processInput) ----

  function Apply(l: Ledger, e: Event, noticed: bool): Ledger {
    match e
    case Fund(_, txid, row, op, utxo) =>
      if noticed then InsertUnspent(InsertSp(InsertTx(l, txid, row), utxo.sh, txid), op, utxo) else l
    case Spend(height, txid, row, op) =>
      if op in l.index then DeleteUnspent(InsertSp(InsertTx(l, txid, row), l.index[op].sh, txid), op, height) else l
  }

  ghost function Notice(r: set<OutPoint>, e: Event, noticed: bool): set<OutPoint> {
    if e.Fund? && noticed then r + {e.op} else r
  }

  // ---- Basic facts ----

  lemma SpendHeightAt(coin: OutPoint -> Utxo, es: seq<Event>, k: nat)
    requires Wf(coin, es) && k < |es| && es[k].Spend? && es[k].op in Funded(es, |es|)
    ensures es[k].op in SpentOps(es, |es|) && SpendHeight(es, es[k].op) == es[k].height
  {
  }

  lemma RowOfAt(coin: OutPoint -> Utxo, es: seq<Event>, k: nat)
    requires Wf(coin, es) && k < |es|
    ensures Occurs(es, es[k].txid) && RowOf(es, es[k].txid) == es[k].row
  {
  }

  lemma FundedGrows(es: seq<Event>, p: nat, q: nat)
    requires p <= q <= |es|
    ensures Funded(es, p) <= Funded(es, q)
  {
  }

  lemma SpentOpsNext(es: seq<Event>, p: nat)
    requires p < |es|
    ensures SpentOps(es, p + 1) == if es[p].Spend? then SpentOps(es, p) + {es[p].op} else SpentOps(es, p)
  {
    var next := if es[p].Spend? then SpentOps(es, p) + {es[p].op} else SpentOps(es, p);
    forall o | o in next ensures o in SpentOps(es, p + 1) {
      if o in SpentOps(es, p) {
        var k :| 0 <= k < p && es[k].Spend? && es[k].op == o;
        assert 0 <= k < p + 1;
      }
    }
  }

  // ---- The step, table by table ----

  lemma NewScriptTxs(coin: OutPoint -> Utxo, es: seq<Event>, p: nat, r: set<OutPoint>)
    requires p < |es|
    ensures ScriptTxs(coin, es, p + 1, r)
            == ScriptTxs(coin, es, p, r) + if es[p].op in r then {(coin(es[p].op).sh, es[p].txid)} else {}
  {
    var a := ScriptTxs(coin, es, p, r) + if es[p].op in r then {(coin(es[p].op).sh, es[p].txid)} else {};
    forall x | x in a ensures x in ScriptTxs(coin, es, p + 1, r) {
      if x in ScriptTxs(coin, es, p, r) {
        var k :| 0 <= k < p && es[k].op in r && (coin(es[k].op).sh, es[k].txid) == x;
        assert 0 <= k < p + 1;
      }
    }
  }

  lemma NewRelevant(es: seq<Event>, p: nat, r: set<OutPoint>)
    requires p < |es|
    ensures Relevant(es, p + 1, r) == Relevant(es, p, r) + if es[p].op in r then {es[p].txid} else {}
  {
    var a := Relevant(es, p, r) + if es[p].op in r then {es[p].txid} else {};
    forall x | x in a ensures x in Relevant(es, p + 1, r) {
      if x in Relevant(es, p, r) {
        var k :| 0 <= k < p && es[k].op in r && es[k].txid == x;
        assert 0 <= k < p + 1;
      }
    }
  }

  // An outpoint created only at p or later occurs nowhere before p.
  lemma Unseen(coin: OutPoint -> Utxo, es: seq<Event>, p: nat, r: set<OutPoint>, o: OutPoint)
    requires Wf(coin, es) && p < |es| && es[p].Fund? && es[p].op == o
    requires r <= Funded(es, p)
    ensures o !in r && o !in SpentOps(es, p + 1)
    ensures Relevant(es, p, r + {o}) == Relevant(es, p, r)
    ensures ScriptTxs(coin, es, p, r + {o}) == ScriptTxs(coin, es, p, r)
  {
    forall k | 0 <= k < p ensures es[k].op != o {
    }
    SpentOpsNext(es, p);
    forall x | x in Relevant(es, p, r) ensures x in Relevant(es, p, r + {o}) {
      var k :| 0 <= k < p && es[k].op in r && es[k].txid == x;
      assert es[k].op in r + {o};
    }
    forall x | x in ScriptTxs(coin, es, p, r) ensures x in ScriptTxs(coin, es, p, r + {o}) {
      var k :| 0 <= k < p && es[k].op in r && (coin(es[k].op).sh, es[k].txid) == x;
      assert es[k].op in r + {o};
    }
  }

  // ---- A step on the union of two descriptions is a step on the second ----

  lemma MergeUpdate<K, V>(a: map<K, V>, b: map<K, V>, k: K, v: V)
    ensures (a + b)[k := v] == a + b[k := v]
    ensures k in a && a[k] == v && k !in b ==> a + b == a + b[k := v]
    ensures k in b && b[k] == v ==> b[k := v] == b
  {
    assert k in b && b[k] == v ==> b[k := v] == b;
    assert k in a && a[k] == v && k !in b ==> a + b == a + b[k := v];
  }

  lemma MergeRemove<K, V>(a: map<K, V>, b: map<K, V>, k: K)
    requires k !in a
    ensures (a + b) - {k} == a + (b - {k})
  {
  }

  lemma PutIfAbsentOnMerge<K, V>(a: map<K, V>, b: map<K, V>, k: K, v: V)
    requires k in a ==> a[k] == v
    requires k in b ==> b[k] == v
    ensures PutIfAbsent(a + b, k, v) == a + PutIfAbsent(b, k, v)
    ensures PutIfAbsent(b, k, v) == b[k := v]
  {
    MergeUpdate(a, b, k, v);
  }

  lemma FundOnUnion(a: Ledger, b: Ledger, e: Event)
    requires e.Fund? && a.index == a.unspent && b.index == b.unspent
    requires e.txid in a.tx ==> a.tx[e.txid] == e.row
    requires e.txid in b.tx ==> b.tx[e.txid] == e.row
    requires e.op in a.unspent ==> a.unspent[e.op] == e.utxo
    requires e.op !in b.unspent
    ensures Apply(Union(a, b), e, true) == Union(a, Apply(b, e, true))
  {
    PutIfAbsentOnMerge(a.tx, b.tx, e.txid, e.row);
    PutIfAbsentOnMerge(a.unspent, b.unspent, e.op, e.utxo);
    MergeUpdate(a.index, b.index, e.op, e.utxo);
    assert Union(a, b).sptx + {(e.utxo.sh, e.txid)} == a.sptx + (b.sptx + {(e.utxo.sh, e.txid)});
  }

  lemma SpendOnUnion(a: Ledger, b: Ledger, e: Event)
    requires e.Spend? && a.index == a.unspent && b.index == b.unspent
    requires e.txid in a.tx ==> a.tx[e.txid] == e.row
    requires e.txid in b.tx ==> b.tx[e.txid] == e.row
    requires e.op !in a.unspent && e.op in b.unspent && e.op !in b.spent
    requires e.op in a.spent ==> a.spent[e.op] == SpentRow(b.unspent[e.op], e.height)
    ensures Apply(Union(a, b), e, false) == Union(a, Apply(b, e, false))
  {
    PutIfAbsentOnMerge(a.tx, b.tx, e.txid, e.row);
    PutIfAbsentOnMerge(a.spent, b.spent, e.op, SpentRow(b.unspent[e.op], e.height));
    MergeRemove(a.unspent, b.unspent, e.op);
    var sh := b.index[e.op].sh;
    assert (a.sptx + b.sptx) + {(sh, e.txid)} == a.sptx + (b.sptx + {(sh, e.txid)});
  }

  // ---- A step on one description ----

  lemma TxRowsGrow(coin: OutPoint -> Utxo, es: seq<Event>, p: nat, r: set<OutPoint>)
    requires Wf(coin, es) && p < |es| && es[p].op in r
    ensures TxRows(es, p + 1, r) == TxRows(es, p, r)[es[p].txid := es[p].row]
    ensures es[p].txid in TxRows(es, p, r) ==> TxRows(es, p, r)[es[p].txid] == es[p].row
  {
    hide Wf, RowOf, Relevant;
    NewRelevant(es, p, r);
    RowOfAt(coin, es, p);
  }

  lemma TxRowsAgree(coin: OutPoint -> Utxo, es: seq<Event>, p: nat, q: nat, r: set<OutPoint>)
    requires Wf(coin, es) && p < |es| && q <= |es|
    ensures es[p].txid in TxRows(es, q, r) ==> TxRows(es, q, r)[es[p].txid] == es[p].row
  {
    RowOfAt(coin, es, p);
  }

  lemma UnspentAfterFund(coin: OutPoint -> Utxo, es: seq<Event>, p: nat, r: set<OutPoint>, o: OutPoint)
    requires p < |es| && SpentOps(es, p + 1) == SpentOps(es, p) && o !in SpentOps(es, p)
    ensures Unspent(coin, es, p + 1, r + {o}) == Unspent(coin, es, p, r)[o := coin(o)]
    ensures Spent(coin, es, p + 1, r + {o}) == Spent(coin, es, p, r)
  {
  }

  lemma UnspentAfterSpend(coin: OutPoint -> Utxo, es: seq<Event>, p: nat, r: set<OutPoint>, o: OutPoint)
    requires p < |es| && SpentOps(es, p + 1) == SpentOps(es, p) + {o} && o in r
    requires o in SpentOps(es, |es|)
    ensures Unspent(coin, es, p + 1, r) == Unspent(coin, es, p, r) - {o}
    ensures Spent(coin, es, p + 1, r) == Spent(coin, es, p, r)[o := SpentRow(coin(o), SpendHeight(es, o))]
  {
  }

  lemma FundOnMeaning(coin: OutPoint -> Utxo, es: seq<Event>, p: nat, r: set<OutPoint>)
    requires Wf(coin, es) && p < |es| && r <= Funded(es, p) && es[p].Fund?
    ensures Apply(Meaning(coin, es, p, r), es[p], true) == Meaning(coin, es, p + 1, r + {es[p].op})
  {
    var e := es[p];
    var n := r + {e.op};
    Unseen(coin, es, p, r, e.op);
    TxRowsGrow(coin, es, p, n);
    TxRowsSame(es, p, r, n);
    NewScriptTxs(coin, es, p, n);
    SpentOpsNext(es, p);
    UnspentAfterFund(coin, es, p, r, e.op);
    FundEffect(Meaning(coin, es, p, r), e);
  }

  lemma TxRowsSame(es: seq<Event>, p: nat, r: set<OutPoint>, n: set<OutPoint>)
    requires p <= |es| && Relevant(es, p, n) == Relevant(es, p, r)
    ensures TxRows(es, p, n) == TxRows(es, p, r)
  {
  }

  lemma FundEffect(l: Ledger, e: Event)
    requires e.Fund? && l.index == l.unspent && e.op !in l.unspent
    requires e.txid in l.tx ==> l.tx[e.txid] == e.row
    ensures Apply(l, e, true) == Ledger(l.tx[e.txid := e.row], l.sptx + {(e.utxo.sh, e.txid)},
                                        l.unspent[e.op := e.utxo], l.spent, l.unspent[e.op := e.utxo])
  {
    MergeUpdate(map[], l.tx, e.txid, e.row);
  }

  lemma SpendEffect(l: Ledger, e: Event)
    requires e.Spend? && l.index == l.unspent && e.op in l.unspent && e.op !in l.spent
    requires e.txid in l.tx ==> l.tx[e.txid] == e.row
    ensures Apply(l, e, false) == Ledger(l.tx[e.txid := e.row], l.sptx + {(l.unspent[e.op].sh, e.txid)},
                                         l.unspent - {e.op}, l.spent[e.op := SpentRow(l.unspent[e.op], e.height)],
                                         l.unspent - {e.op})
  {
    MergeUpdate(map[], l.tx, e.txid, e.row);
  }

  lemma NotSpentYet(coin: OutPoint -> Utxo, es: seq<Event>, p: nat)
    requires Wf(coin, es) && p < |es| && es[p].Spend? && es[p].op in Funded(es, |es|)
    ensures es[p].op !in SpentOps(es, p)
  {
  }

  lemma SpendOnMeaning(coin: OutPoint -> Utxo, es: seq<Event>, p: nat, r: set<OutPoint>)
    requires Wf(coin, es) && p < |es| && r <= Funded(es, p) && es[p].Spend? && es[p].op in r
    ensures es[p].op !in SpentOps(es, p)
    ensures es[p].op in SpentOps(es, |es|) && SpendHeight(es, es[p].op) == es[p].height
    ensures Apply(Meaning(coin, es, p, r), es[p], false) == Meaning(coin, es, p + 1, r)
  {
    var e := es[p];
    FundedGrows(es, p, |es|);
    NotSpentYet(coin, es, p);
    SpendHeightAt(coin, es, p);
    TxRowsGrow(coin, es, p, r);
    NewScriptTxs(coin, es, p, r);
    SpentOpsNext(es, p);
    UnspentAfterSpend(coin, es, p, r, e.op);
    SpendEffect(Meaning(coin, es, p, r), e);
  }

  // An event about an output that was not recognised leaves the description as it is.
  lemma SkipOnMeaning(es: seq<Event>, coin: OutPoint -> Utxo, p: nat, r: set<OutPoint>)
    requires p < |es| && es[p].op !in r
    ensures Meaning(coin, es, p + 1, r) == Meaning(coin, es, p, r)
  {
    hide Relevant, ScriptTxs, SpentOps, RowOf, SpendHeight;
    NewRelevant(es, p, r);
    NewScriptTxs(coin, es, p, r);
    SpentOpsNext(es, p);
    assert Unspent(coin, es, p + 1, r) == Unspent(coin, es, p, r);
    assert Spent(coin, es, p + 1, r) == Spent(coin, es, p, r);
    assert TxRows(es, p + 1, r) == TxRows(es, p, r);
  }

  lemma MeaningOfNothing(coin: OutPoint -> Utxo, es: seq<Event>, p: nat)
    requires p <= |es|
    ensures Meaning(coin, es, p, {}) == EMPTY
  {
    hide SpentOps;
    assert Relevant(es, p, {}) == {};
    assert ScriptTxs(coin, es, p, {}) == {};
    assert TxRows(es, p, {}) == map[] && Unspent(coin, es, p, {}) == map[] && Spent(coin, es, p, {}) == map[];
  }
}
