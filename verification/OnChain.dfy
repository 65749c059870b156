// The tables said in terms of the blocks of the stored chain: what every row of every reachable state
// says, and exactly which rows there are once the wallets have caught up.
module TablesOnChain {
  import opened Base
  import opened Tables
  import opened Oracle
  import opened Passes
  import opened Derivation
  import opened Scan
  import opened Chain
  import opened Blocks
  import opened System
  import opened Invariant
  import opened Runs
  import opened Queries
  import opened Theorems

  // ---- Every row, at any time ----

  // Every unspent row is an output of a block with its amount and script, every spent row one that the block
  // at its height spends, every tx row the place of its transaction.
  ghost predicate RowsOnChain(env: Env, chain: seq<Hash>, l: Ledger) {
    && l.index == l.unspent
    && (forall o :: o in l.unspent ==> Created(env, chain, o, l.unspent[o]))
    && (forall o :: o in l.spent ==> Created(env, chain, o, l.spent[o].utxo) && SpentIn(env, chain, l.spent[o].height, o))
    && (forall id :: id in l.tx ==> RowStands(env, chain, id, l.tx[id]))
  }

  ghost predicate Created(env: Env, chain: seq<Hash>, o: OutPoint, u: Utxo) {
    exists t, p :: CreatedAt(env, chain, t, p, o, u)
  }

  ghost predicate SpentIn(env: Env, chain: seq<Hash>, t: nat, o: OutPoint) {
    exists p :: SpentAt(env, chain, t, p, o)
  }

  ghost predicate RowStands(env: Env, chain: seq<Hash>, id: Hash, row: TxRow) {
    exists t: nat :: StandsAt(env, chain, t, row.pos, id) && t < |chain| && row.blockHash == chain[t]
  }

  lemma CreatedIff(env: Env, coin: OutPoint -> Utxo, chain: seq<Hash>, o: OutPoint, u: Utxo)
    requires |chain| >= 1 && Wf(coin, All(env, chain))
    ensures Created(env, chain, o, u) <==> o in Funded(All(env, chain), |All(env, chain)|) && u == coin(o)
  {
    hide All, Row;
    var es := All(env, chain);
    if t, p :| CreatedAt(env, chain, t, p, o, u) {
      var k := OutputHasEvent(env, chain, t, p, o, u);
    }
    if o in Funded(es, |es|) {
      var k :| 0 <= k < |es| && es[k].Fund? && es[k].op == o;
      EventIsOnChain(env, chain, k);
      assert CreatedAt(env, chain, es[k].height, es[k].row.pos, o, coin(o));
    }
  }

  lemma SpentIff(env: Env, coin: OutPoint -> Utxo, chain: seq<Hash>, t: nat, o: OutPoint)
    requires |chain| >= 1 && Wf(coin, All(env, chain)) && o in Funded(All(env, chain), |All(env, chain)|)
    ensures SpentIn(env, chain, t, o) <==> o in SpentOps(All(env, chain), |All(env, chain)|) && SpendHeight(All(env, chain), o) == t
  {
    hide All, Row, Funded;
    var es := All(env, chain);
    if p :| SpentAt(env, chain, t, p, o) {
      var k := InputHasEvent(env, chain, t, p, o);
      SpendHeightAt(coin, es, k);
    }
    if o in SpentOps(es, |es|) && SpendHeight(es, o) == t {
      var k :| 0 <= k < |es| && es[k].Spend? && es[k].op == o;
      SpendHeightAt(coin, es, k);
      EventIsOnChain(env, chain, k);
      assert SpentAt(env, chain, t, es[k].row.pos, o);
    }
  }

  // In every reachable state, in the middle of a rescan too.
  lemma RowsAreOnChain(w: World, sc: Scope, sys: Sys, marks: set<Mark>)
    requires Inv(w, sc, sys, marks)
    ensures RowsOnChain(w.env, sys.chain, sys.scan.ledger)
  {
    hide Inv, All, Row, RowOf, Occurs, Wf, Funded, SpentOps, SpendHeight, CreatedAt, SpentAt, StandsAt;
    InvFits(w, sc, sys, marks);
    var l, es, chain := sys.scan.ledger, All(w.env, sys.chain), sys.chain;
    forall o | o in l.unspent ensures Created(w.env, chain, o, l.unspent[o]) {
      CreatedIff(w.env, w.coin, chain, o, l.unspent[o]);
    }
    forall o | o in l.spent ensures Created(w.env, chain, o, l.spent[o].utxo) && SpentIn(w.env, chain, l.spent[o].height, o) {
      CreatedIff(w.env, w.coin, chain, o, l.spent[o].utxo);
      SpentIff(w.env, w.coin, chain, l.spent[o].height, o);
    }
    forall id | id in l.tx ensures RowStands(w.env, chain, id, l.tx[id]) {
      var k := FitsRow(w.coin, es, l, id);
      EventIsOnChain(w.env, chain, k);
      assert StandsAt(w.env, chain, es[k].height, l.tx[id].pos, id);
    }
  }

  // ---- Spent or unspent, at the tip ----

  ghost predicate SpentByTip(env: Env, chain: seq<Hash>, o: OutPoint) {
    exists t :: SpentIn(env, chain, t, o)
  }

  // After one scan of the whole chain that recognised r.
  lemma MeaningSpends(env: Env, coin: OutPoint -> Utxo, chain: seq<Hash>, r: set<OutPoint>, o: OutPoint)
    requires |chain| >= 1 && Wf(coin, All(env, chain)) && r <= Funded(All(env, chain), |All(env, chain)|)
    ensures var es := All(env, chain);
            var l := Meaning(coin, es, |es|, r);
            && (o in l.unspent <==> o in r && !SpentByTip(env, chain, o)) && (o in l.unspent ==> l.unspent[o] == coin(o))
            && (forall t: nat :: (o in l.spent && l.spent[o].height == t) <==> o in r && SpentIn(env, chain, t, o))
            && (o in l.spent ==> l.spent[o].utxo == coin(o))
  {
    hide All, Wf, Funded, SpentOps, SpendHeight, SpentIn, TxRows, ScriptTxs;
    var es := All(env, chain);
    if o in r {
      forall t: nat ensures SpentIn(env, chain, t, o) <==> o in SpentOps(es, |es|) && SpendHeight(es, o) == t {
        SpentIff(env, coin, chain, t, o);
      }
      if o in SpentOps(es, |es|) {
        assert SpentIn(env, chain, SpendHeight(es, o), o);
      }
    }
  }

  // At the tip an output in the tables is unspent if and only if no transaction of the chain spends it, and
  // spent, at the height of the block that spends it, if and only if one does.
  lemma SpentAtTip(w: World, sc: Scope, sys: Sys, marks: set<Mark>, o: OutPoint)
    requires Inv(w, sc, sys, marks) && CaughtUp(sys)
    requires o in sys.scan.ledger.unspent || o in sys.scan.ledger.spent
    ensures o in sys.scan.ledger.unspent <==> !SpentByTip(w.env, sys.chain, o)
    ensures forall t: nat :: (o in sys.scan.ledger.spent && sys.scan.ledger.spent[o].height == t) <==> SpentIn(w.env, sys.chain, t, o)
  {
    hide Inv, CaughtUp, All, Wf, Funded, SpentIn, SpentByTip, Meaning, Owned;
    CaughtUpIsOneScan(w, sc, sys, marks);
    InvBasics(w, sc, sys, marks);
    MeaningSpends(w.env, w.coin, sys.chain, Known(marks), o);
    assert o in Known(marks) by {
      if o in sys.scan.ledger.spent { assert SpentIn(w.env, sys.chain, sys.scan.ledger.spent[o].height, o); }
    }
  }

  // ---- The whole tables, at the tip of a gap-respecting chain ----

  // Height t is one at which the owner of sh is followed.
  ghost predicate Followed(w: World, low: seq<nat>, sh: Hash, t: nat) {
    Owner(w.env, w.ids, sh).Some? && Follows(low, Owner(w.env, w.ids, sh).value.walletIdx, t)
  }

  // Output o is created above where its owner is followed from, with value and script u.
  ghost predicate Belongs(w: World, low: seq<nat>, chain: seq<Hash>, o: OutPoint, u: Utxo) {
    exists t, p :: CreatedAt(w.env, chain, t, p, o, u) && Followed(w, low, u.sh, t)
  }

  // The transaction at position p of block t creates or spends such an output to sh.
  ghost predicate Touches(w: World, low: seq<nat>, chain: seq<Hash>, sh: Hash, t: nat, p: nat) {
    exists o, u :: Belongs(w, low, chain, o, u) && u.sh == sh && (CreatedAt(w.env, chain, t, p, o, u) || SpentAt(w.env, chain, t, p, o))
  }

  ghost predicate TxTouches(w: World, low: seq<nat>, chain: seq<Hash>, sh: Hash, id: Hash) {
    exists t, p :: StandsAt(w.env, chain, t, p, id) && Touches(w, low, chain, sh, t, p)
  }

  // These rows and no others.
  ghost predicate UnspentAre(w: World, low: seq<nat>, chain: seq<Hash>, unspent: map<OutPoint, Utxo>) {
    forall o, u :: (o in unspent && unspent[o] == u) <==> Belongs(w, low, chain, o, u) && !SpentByTip(w.env, chain, o)
  }

  ghost predicate SpentAre(w: World, low: seq<nat>, chain: seq<Hash>, spent: map<OutPoint, SpentRow>) {
    forall o, u, t: nat :: (o in spent && spent[o] == SpentRow(u, t)) <==> Belongs(w, low, chain, o, u) && SpentIn(w.env, chain, t, o)
  }

  ghost predicate PairsAre(w: World, low: seq<nat>, chain: seq<Hash>, sptx: set<(Hash, Hash)>) {
    forall sh: Hash, id: Hash :: (sh, id) in sptx <==> TxTouches(w, low, chain, sh, id)
  }

  ghost predicate TxAre(w: World, low: seq<nat>, chain: seq<Hash>, tx: map<Hash, TxRow>) {
    && (forall id: Hash :: id in tx <==> exists sh :: TxTouches(w, low, chain, sh, id))
    && (forall id :: id in tx ==> RowStands(w.env, chain, id, tx[id]))
  }

  ghost predicate TablesAre(w: World, low: seq<nat>, chain: seq<Hash>, l: Ledger) {
    && UnspentAre(w, low, chain, l.unspent) && SpentAre(w, low, chain, l.spent)
    && PairsAre(w, low, chain, l.sptx) && TxAre(w, low, chain, l.tx) && l.index == l.unspent
  }

  lemma BelongsIff(w: World, low: seq<nat>, chain: seq<Hash>, o: OutPoint, u: Utxo)
    requires GoodChain(w, chain) && |chain| >= 1
    ensures Belongs(w, low, chain, o, u) <==> o in Owned(w, low, chain) && u == w.coin(o)
  {
    hide All, Row, Owner, Pays, Pos, IndexesOk, IsChain, Follows;
    var es := All(w.env, chain);
    if t, p :| CreatedAt(w.env, chain, t, p, o, u) && Followed(w, low, u.sh, t) {
      var k := OutputHasEvent(w.env, chain, t, p, o, u);
      PaysIffFollowed(w, chain, low, k);
    }
    if o in Owned(w, low, chain) {
      var k :| 0 <= k < |es| && Pays(w.env, w.ids, Lows(w.env, chain, low), es, k) && es[k].op == o;
      PaysIffFollowed(w, chain, low, k);
      EventIsOnChain(w.env, chain, k);
      assert CreatedAt(w.env, chain, es[k].height, es[k].row.pos, o, w.coin(o));
    }
  }

  // A transaction touches a script exactly when one of its events is about a recorded output to it.
  lemma TouchesIff(w: World, low: seq<nat>, chain: seq<Hash>, sh: Hash, id: Hash)
    requires GoodChain(w, chain) && |chain| >= 1
    ensures var es := All(w.env, chain);
            TxTouches(w, low, chain, sh, id) <==> exists k :: 0 <= k < |es| && es[k].txid == id && es[k].op in Owned(w, low, chain) && w.coin(es[k].op).sh == sh
  {
    hide All, Row, IndexesOk, IsChain, Belongs, Owned, Wf;
    var es := All(w.env, chain);
    if t, p :| StandsAt(w.env, chain, t, p, id) && Touches(w, low, chain, sh, t, p) {
      var o, u :| Belongs(w, low, chain, o, u) && u.sh == sh && (CreatedAt(w.env, chain, t, p, o, u) || SpentAt(w.env, chain, t, p, o));
      BelongsIff(w, low, chain, o, u);
      var k;
      if CreatedAt(w.env, chain, t, p, o, u) {
        k := OutputHasEvent(w.env, chain, t, p, o, u);
      } else {
        k := InputHasEvent(w.env, chain, t, p, o);
      }
    }
    if k :| 0 <= k < |es| && es[k].txid == id && es[k].op in Owned(w, low, chain) && w.coin(es[k].op).sh == sh {
      EventIsOnChain(w.env, chain, k);
      FundsCoin(w.coin, es, k);
      BelongsIff(w, low, chain, es[k].op, w.coin(es[k].op));
      assert Touches(w, low, chain, sh, es[k].height, es[k].row.pos);
    }
  }

  lemma FundsCoin(coin: OutPoint -> Utxo, es: seq<Event>, k: nat)
    requires Wf(coin, es) && k < |es|
    ensures es[k].Fund? ==> es[k].utxo == coin(es[k].op)
  {
  }

  lemma OwnedIsFunded(w: World, low: seq<nat>, chain: seq<Hash>)
    requires |chain| >= 1
    ensures Owned(w, low, chain) <= Funded(All(w.env, chain), |All(w.env, chain)|)
  {
    AllOwnedIsFunded(w, Lows(w.env, chain, low), All(w.env, chain), 0, |All(w.env, chain)|);
  }

  lemma OracleTx(w: World, low: seq<nat>, chain: seq<Hash>, id: Hash)
    requires GoodChain(w, chain) && |chain| >= 1
    ensures id in OracleLedger(w, low, chain).tx <==> exists sh :: TxTouches(w, low, chain, sh, id)
    ensures id in OracleLedger(w, low, chain).tx ==> RowStands(w.env, chain, id, OracleLedger(w, low, chain).tx[id])
  {
    hide All, Row, IndexesOk, IsChain, Owned, TxTouches, Wf, RowOf, Unspent, Spent, ScriptTxs;
    var l, es, r := OracleLedger(w, low, chain), All(w.env, chain), Owned(w, low, chain);
    if id in l.tx {
      assert id in Relevant(es, |es|, r);
      var k :| 0 <= k < |es| && es[k].op in r && es[k].txid == id;
      TouchesIff(w, low, chain, w.coin(es[k].op).sh, id);
      RowOfAt(w.coin, es, k);
      EventIsOnChain(w.env, chain, k);
      assert StandsAt(w.env, chain, es[k].height, l.tx[id].pos, id);
    }
    if sh :| TxTouches(w, low, chain, sh, id) {
      TouchesIff(w, low, chain, sh, id);
    }
  }

  lemma OraclePair(w: World, low: seq<nat>, chain: seq<Hash>, sh: Hash, id: Hash)
    requires GoodChain(w, chain) && |chain| >= 1
    ensures (sh, id) in OracleLedger(w, low, chain).sptx <==> TxTouches(w, low, chain, sh, id)
  {
    hide All, Row, IndexesOk, IsChain, Owned, TxTouches, Wf, TxRows, Unspent, Spent;
    TouchesIff(w, low, chain, sh, id);
  }

  lemma OracleOutput(w: World, low: seq<nat>, chain: seq<Hash>, o: OutPoint, u: Utxo)
    requires GoodChain(w, chain) && |chain| >= 1
    ensures var l := OracleLedger(w, low, chain);
            && ((o in l.unspent && l.unspent[o] == u) <==> Belongs(w, low, chain, o, u) && !SpentByTip(w.env, chain, o))
            && (forall t: nat :: (o in l.spent && l.spent[o] == SpentRow(u, t)) <==> Belongs(w, low, chain, o, u) && SpentIn(w.env, chain, t, o))
            && l.index == l.unspent
  {
    hide All, IndexesOk, IsChain, Belongs, Owned, SpentIn, SpentByTip, Wf, Meaning;
    var es, r := All(w.env, chain), Owned(w, low, chain);
    OwnedIsFunded(w, low, chain);
    BelongsIff(w, low, chain, o, u);
    MeaningSpends(w.env, w.coin, chain, r, o);
    IndexOfMeaning(w.coin, es, |es|, r);
    UnspentOfMeaning(w.coin, es, |es|, r);
    var l := OracleLedger(w, low, chain);
    forall t: nat ensures (o in l.spent && l.spent[o] == SpentRow(u, t)) <==> Belongs(w, low, chain, o, u) && SpentIn(w.env, chain, t, o) {
      if o in l.spent {
        assert l.spent[o] == SpentRow(l.spent[o].utxo, l.spent[o].height);
        assert SpentIn(w.env, chain, l.spent[o].height, o);
      }
    }
  }

  lemma UnspentOfMeaning(coin: OutPoint -> Utxo, es: seq<Event>, p: nat, r: set<OutPoint>)
    requires p <= |es|
    ensures Meaning(coin, es, p, r).unspent == Unspent(coin, es, p, r)
  {
  }

  // The oracle in terms of the blocks: each output of blocks 1, 2, ... to a script of a wallet followed there,
  // with its amount; unspent, or spent at the height that spends it; and every transaction that creates or
  // spends one of them.
  lemma OracleOnChain(w: World, low: seq<nat>, chain: seq<Hash>)
    requires GoodChain(w, chain)
    ensures |chain| >= 1 && TablesAre(w, low, chain, OracleLedger(w, low, chain))
  {
    hide GoodChain, OracleLedger, Belongs, SpentIn, SpentByTip, TxTouches, RowStands;
    GoodNonEmpty(w, chain);
    var l := OracleLedger(w, low, chain);
    OracleOutput(w, low, chain, OutPoint(0, 0), Utxo(0, 0));
    assert UnspentAre(w, low, chain, l.unspent) && SpentAre(w, low, chain, l.spent) by {
      forall o, u
        ensures (o in l.unspent && l.unspent[o] == u) <==> Belongs(w, low, chain, o, u) && !SpentByTip(w.env, chain, o)
        ensures forall t: nat :: (o in l.spent && l.spent[o] == SpentRow(u, t)) <==> Belongs(w, low, chain, o, u) && SpentIn(w.env, chain, t, o)
      {
        OracleOutput(w, low, chain, o, u);
      }
    }
    assert PairsAre(w, low, chain, l.sptx) by {
      forall sh: Hash, id: Hash ensures (sh, id) in l.sptx <==> TxTouches(w, low, chain, sh, id) {
        OraclePair(w, low, chain, sh, id);
      }
    }
    assert TxAre(w, low, chain, l.tx) by {
      forall id: Hash
        ensures id in l.tx <==> exists sh :: TxTouches(w, low, chain, sh, id)
        ensures id in l.tx ==> RowStands(w.env, chain, id, l.tx[id])
      {
        OracleTx(w, low, chain, id);
      }
    }
  }

  // So at the tip of a gap-respecting chain, whatever the run.
  lemma TipOnChain(w: World, sc: Scope, sys: Sys, marks: set<Mark>)
    requires Inv(w, sc, sys, marks) && CaughtUp(sys) && RespectsGap(w, sc, sys.chain)
    ensures TablesAre(w, sc.low, sys.chain, sys.scan.ledger)
  {
    hide Inv, CaughtUp, RespectsGap, OracleLedger, TablesAre, Owned, GoodChain;
    InvBasics(w, sc, sys, marks);
    InvGood(w, sc, sys, marks);
    CaughtUpIsOracle(w, sc, sys, marks);
    OracleOnChain(w, sc.low, sys.chain);
  }

  // And the history of a script hash is the transactions that touch it.
  lemma TipHistory(w: World, sc: Scope, sys: Sys, marks: set<Mark>, sh: Hash, id: Hash)
    requires Inv(w, sc, sys, marks) && CaughtUp(sys) && RespectsGap(w, sc, sys.chain)
    ensures |sys.chain| >= 1
    ensures id in HistoryTxs(sys.scan.ledger, HeaderTable(sys.chain), sh) <==> TxTouches(w, sc.low, sys.chain, sh, id)
  {
    hide Inv, CaughtUp, RespectsGap, TxTouches, All, Owned, Wf, IndexesOk, IsChain, HistoryTxs, HeaderTable, Balance, Received, Paid;
    InvGood(w, sc, sys, marks);
    TipOfInv(w, sc, sys, marks, sh);
    TouchesIff(w, sc.low, sys.chain, sh, id);
  }

  // After every run from an empty database: every row is on the chain, and at the tip of a gap-respecting
  // chain the rows are exactly those the blocks call for.
  lemma EveryRunIsOnChain(w: World, births: seq<nat>, acts: seq<Action>)
    requires 1 <= |births| <= |w.ids| && DistinctScripts(w.env, w.ids)
    requires forall a :: a in acts ==> GoodAction(w, a)
    ensures var s := Fresh(w, births);
            |s.chain| >= 1 && LabelsInRange(s.scan.keys)
    ensures var end := RunAll(w, Fresh(w, births), FreshScope(w, births), acts);
            end.Some? ==> var (sys, sc) := end.value;
              RowsOnChain(w.env, sys.chain, sys.scan.ledger)
              && (CaughtUp(sys) && RespectsGap(w, sc, sys.chain) ==> TablesAre(w, sc.low, sys.chain, sys.scan.ledger))
  {
    hide Fresh, RunAll, GoodAction, Inv, OnePass, CaughtUp, RespectsGap, LabelsInRange, RowsOnChain, TablesAre;
    FreshIsGood(w, births);
    var marks := EveryRunKeepsInv(w, FreshScope(w, births), Fresh(w, births), {}, acts);
    var end := RunAll(w, Fresh(w, births), FreshScope(w, births), acts);
    if end.Some? {
      var (sys, sc) := end.value;
      RowsAreOnChain(w, sc, sys, marks);
      if CaughtUp(sys) && RespectsGap(w, sc, sys.chain) {
        TipOnChain(w, sc, sys, marks);
      }
    }
  }
}
