// What the events of a chain say about its blocks: every output and every input of every transaction
// is one event, in the order of the blocks, with the transaction's own place, output and amount.
module Blocks {
  import opened Base
  import opened Oracle
  import opened Chain

  // ---- Blocks ----

  // Transaction id stands at position p of block t.
  ghost predicate StandsAt(env: Env, chain: seq<Hash>, t: nat, p: nat, id: Hash) {
    1 <= t < |chain| && p < |env.blockOf(chain[t]).txs| && env.blockOf(chain[t]).txs[p].txid == id
  }

  // That transaction creates output o, with value and script u.
  ghost predicate CreatedAt(env: Env, chain: seq<Hash>, t: nat, p: nat, o: OutPoint, u: Utxo) {
    StandsAt(env, chain, t, p, o.txid) &&
    var outs := env.blockOf(chain[t]).txs[p].outs;
    o.vout < |outs| && outs[o.vout] == u
  }

  // The transaction at position p of block t spends o.
  ghost predicate SpentAt(env: Env, chain: seq<Hash>, t: nat, p: nat, o: OutPoint) {
    1 <= t < |chain| && p < |env.blockOf(chain[t]).txs| && o in env.blockOf(chain[t]).txs[p].ins
  }

  // An event that says of its place what the block there says.
  ghost predicate IsOnChain(env: Env, chain: seq<Hash>, e: Event) {
    && StandsAt(env, chain, e.height, e.row.pos, e.txid) && e.row.blockHash == chain[e.height]
    && e.row == Row(env, chain[e.height], e.row.pos)
    && match e
       case Fund(height, txid, row, op, utxo) => CreatedAt(env, chain, height, row.pos, op, utxo) && op.txid == txid
       case Spend(height, txid, row, op) => SpentAt(env, chain, height, row.pos, op)
  }

  // ---- The events of a block ----

  lemma {:induction false} TxsEventsPrefix(env: Env, bh: Hash, height: nat, i: nat, n: nat)
    requires i <= n <= |env.blockOf(bh).txs|
    ensures |TxsEvents(env, bh, height, i)| <= |TxsEvents(env, bh, height, n)|
    ensures TxsEvents(env, bh, height, n)[..|TxsEvents(env, bh, height, i)|] == TxsEvents(env, bh, height, i)
    decreases n
  {
    if i < n {
      TxsEventsPrefix(env, bh, height, i, n - 1);
      var a, b := TxsEvents(env, bh, height, n - 1), TxsEvents(env, bh, height, n);
      assert b[..|a|] == a;
    }
  }

  // One transaction's events in the block's: its outputs, then its inputs.
  lemma TxEventsAt(env: Env, bh: Hash, height: nat, i: nat)
    requires i < |env.blockOf(bh).txs|
    ensures var before, upto, outs, ins := TxsEvents(env, bh, height, i), TxsEvents(env, bh, height, i + 1), OutEvents(env, bh, height, i), InEvents(env, bh, height, i);
            && |upto| == |before| + |outs| + |ins|
            && (forall j :: 0 <= j < |outs| ==> upto[|before| + j] == outs[j])
            && (forall j :: 0 <= j < |ins| ==> upto[|before| + |outs| + j] == ins[j])
  {
    hide OutEvents, InEvents;
  }

  lemma EventOfBlock(env: Env, bh: Hash, height: nat, i: nat, k: nat)
    requires i < |env.blockOf(bh).txs| && |TxsEvents(env, bh, height, i)| <= k < |TxsEvents(env, bh, height, i + 1)|
    ensures k < |BlockEvents(env, bh, height)| && BlockEvents(env, bh, height)[k] == TxsEvents(env, bh, height, i + 1)[k]
  {
    hide TxsEvents;
    TxsEventsPrefix(env, bh, height, i + 1, |env.blockOf(bh).txs|);
    var m := |TxsEvents(env, bh, height, i + 1)|;
    assert BlockEvents(env, bh, height)[..m][k] == BlockEvents(env, bh, height)[k];
  }

  // Event k of the first n transactions is an output or an input of one of them.
  lemma {:induction false} EventOfTx(env: Env, bh: Hash, height: nat, n: nat, k: nat) returns (i: nat)
    requires n <= |env.blockOf(bh).txs| && k < |TxsEvents(env, bh, height, n)|
    ensures i < n && |TxsEvents(env, bh, height, i)| <= k < |TxsEvents(env, bh, height, i + 1)|
    ensures TxsEvents(env, bh, height, n)[k] == TxsEvents(env, bh, height, i + 1)[k]
  {
    if k < |TxsEvents(env, bh, height, n - 1)| {
      i := EventOfTx(env, bh, height, n - 1, k);
    } else {
      i := n - 1;
    }
  }

  lemma TxidOfEvent(env: Env, bh: Hash, height: nat, i: nat, k: nat)
    requires i < |env.blockOf(bh).txs| && |TxsEvents(env, bh, height, i)| <= k < |TxsEvents(env, bh, height, i + 1)|
    ensures TxsEvents(env, bh, height, i + 1)[k].txid == env.blockOf(bh).txs[i].txid
  {
    hide TxsEvents;
    TxEventsAt(env, bh, height, i);
    var j, outs := k - |TxsEvents(env, bh, height, i)|, OutEvents(env, bh, height, i);
    if j >= |outs| {
      assert InEvents(env, bh, height, i)[j - |outs|] == TxsEvents(env, bh, height, i + 1)[|TxsEvents(env, bh, height, i)| + |outs| + (j - |outs|)];
    } else {
      assert outs[j] == TxsEvents(env, bh, height, i + 1)[|TxsEvents(env, bh, height, i)| + j];
    }
  }

  lemma {:induction false} EventOfBlocks(env: Env, chain: seq<Hash>, t: nat, k: nat) returns (u: nat)
    requires t < |chain| && k < |ChainEvents(env, chain, t)|
    ensures 1 <= u <= t && |ChainEvents(env, chain, u - 1)| <= k < |ChainEvents(env, chain, u)|
    ensures ChainEvents(env, chain, t)[k] == ChainEvents(env, chain, u)[k] == BlockEvents(env, chain[u], u)[k - |ChainEvents(env, chain, u - 1)|]
    decreases t
  {
    hide BlockEvents;
    if k < |ChainEvents(env, chain, t - 1)| {
      u := EventOfBlocks(env, chain, t - 1, k);
    } else {
      u := t;
    }
  }

  // Where event k comes from: block t, transaction i, and its place among that one's outputs and inputs.
  lemma EventPlace(env: Env, chain: seq<Hash>, k: nat) returns (t: nat, i: nat, j: nat)
    requires |chain| >= 1 && k < |All(env, chain)|
    ensures 1 <= t < |chain| && i < |env.blockOf(chain[t]).txs|
    ensures k == |ChainEvents(env, chain, t - 1)| + |TxsEvents(env, chain[t], t, i)| + j
    ensures var outs, ins := OutEvents(env, chain[t], t, i), InEvents(env, chain[t], t, i);
            j < |outs| + |ins| && All(env, chain)[k] == if j < |outs| then outs[j] else ins[j - |outs|]
  {
    hide OutEvents, InEvents, TxsEvents, ChainEvents;
    t := EventOfBlocks(env, chain, |chain| - 1, k);
    var b := k - |ChainEvents(env, chain, t - 1)|;
    BlockLength(env, chain, t);
    i := EventOfTx(env, chain[t], t, |env.blockOf(chain[t]).txs|, b);
    TxEventsAt(env, chain[t], t, i);
    j := b - |TxsEvents(env, chain[t], t, i)|;
    var outs := OutEvents(env, chain[t], t, i);
    if j >= |outs| {
      assert InEvents(env, chain[t], t, i)[j - |outs|] == TxsEvents(env, chain[t], t, i + 1)[|TxsEvents(env, chain[t], t, i)| + |outs| + (j - |outs|)];
    }
  }

  lemma BlockLength(env: Env, chain: seq<Hash>, t: nat)
    requires 1 <= t < |chain|
    ensures |ChainEvents(env, chain, t)| == |ChainEvents(env, chain, t - 1)| + |TxsEvents(env, chain[t], t, |env.blockOf(chain[t]).txs|)|
    ensures BlockEvents(env, chain[t], t) == TxsEvents(env, chain[t], t, |env.blockOf(chain[t]).txs|)
  {
    hide TxsEvents;
  }

  // ---- Events and blocks ----

  // Every event says what the chain says: an output's own amount and script, an input's own outpoint.
  lemma EventIsOnChain(env: Env, chain: seq<Hash>, k: nat)
    requires |chain| >= 1 && k < |All(env, chain)|
    ensures IsOnChain(env, chain, All(env, chain)[k])
  {
    hide All, Row;
    var t, i, j := EventPlace(env, chain, k);
    RowAt(env, chain[t], i);
  }

  lemma RowAt(env: Env, bh: Hash, pos: nat)
    requires pos < |env.blockOf(bh).txs|
    ensures Row(env, bh, pos).blockHash == bh && Row(env, bh, pos).pos == pos
  {
  }

  // Every output of every transaction of blocks 1, 2, ... has its event.
  lemma OutputHasEvent(env: Env, chain: seq<Hash>, t: nat, p: nat, o: OutPoint, u: Utxo) returns (k: nat)
    requires |chain| >= 1 && CreatedAt(env, chain, t, p, o, u)
    ensures k < |All(env, chain)| && All(env, chain)[k] == Fund(t, o.txid, Row(env, chain[t], p), o, u)
  {
    hide Row, All, TxsEvents;
    k := PlaceOf(env, chain, t, p, o.vout);
  }

  // So has every input.
  lemma InputHasEvent(env: Env, chain: seq<Hash>, t: nat, p: nat, o: OutPoint) returns (k: nat)
    requires |chain| >= 1 && SpentAt(env, chain, t, p, o)
    ensures k < |All(env, chain)| && All(env, chain)[k] == Spend(t, env.blockOf(chain[t]).txs[p].txid, Row(env, chain[t], p), o)
  {
    hide Row, All, TxsEvents;
    var tx := env.blockOf(chain[t]).txs[p];
    var vin :| 0 <= vin < |tx.ins| && tx.ins[vin] == o;
    k := PlaceOf(env, chain, t, p, |tx.outs| + vin);
  }

  lemma PlaceOf(env: Env, chain: seq<Hash>, t: nat, i: nat, j: nat) returns (k: nat)
    requires 1 <= t < |chain| && i < |env.blockOf(chain[t]).txs|
    requires j < |OutEvents(env, chain[t], t, i)| + |InEvents(env, chain[t], t, i)|
    ensures k == |ChainEvents(env, chain, t - 1)| + |TxsEvents(env, chain[t], t, i)| + j < |All(env, chain)|
    ensures var outs, ins := OutEvents(env, chain[t], t, i), InEvents(env, chain[t], t, i);
            All(env, chain)[k] == if j < |outs| then outs[j] else ins[j - |outs|]
  {
    hide OutEvents, InEvents, TxsEvents, ChainEvents, BlockEvents, All;
    var es, bs, at := All(env, chain), BlockEvents(env, chain[t], t), |TxsEvents(env, chain[t], t, i)| + j;
    TxEventsAt(env, chain[t], t, i);
    EventOfBlock(env, chain[t], t, i, at);
    BlockInChain(env, chain, t);
    PosIs(env, chain, t - 1);
    k := |ChainEvents(env, chain, t - 1)| + at;
    assert es[Pos(env, chain, t - 1)..Pos(env, chain, t)][at] == bs[at];
    var outs := OutEvents(env, chain[t], t, i);
    if j >= |outs| {
      assert InEvents(env, chain[t], t, i)[j - |outs|] == TxsEvents(env, chain[t], t, i + 1)[|TxsEvents(env, chain[t], t, i)| + |outs| + (j - |outs|)];
    }
  }

  lemma PosIs(env: Env, chain: seq<Hash>, t: nat)
    requires t < |chain|
    ensures Pos(env, chain, t) == |ChainEvents(env, chain, t)|
  {
    hide ChainEvents;
  }

  // They come block by block, transaction by transaction; within one the outputs first, in their order.
  lemma EventsInOrder(env: Env, chain: seq<Hash>, k: nat, m: nat)
    requires |chain| >= 1 && k < m < |All(env, chain)|
    ensures var a, b := All(env, chain)[k], All(env, chain)[m];
            a.height < b.height || (a.height == b.height &&
              (a.row.pos < b.row.pos || (a.row.pos == b.row.pos && (b.Fund? ==> a.Fund? && a.op.vout < b.op.vout))))
  {
    hide All, Row, TxsEvents, ChainEvents;
    var t, i, j := EventPlace(env, chain, k);
    var u, g, h := EventPlace(env, chain, m);
    RowAt(env, chain[t], i);
    RowAt(env, chain[u], g);
    TxEventsAt(env, chain[t], t, i);
    TxEventsAt(env, chain[u], u, g);
    BlockLength(env, chain, t);
    BlockLength(env, chain, u);
    if u < t {
      ChainEventsPrefix(env, chain, u, t - 1);
      TxsEventsPrefix(env, chain[u], u, g + 1, |env.blockOf(chain[u]).txs|);
    } else if u == t && g < i {
      TxsEventsPrefix(env, chain[t], t, g + 1, i);
    }
  }
}
