// Header chains, the events of a chain of blocks, and how both depend on a prefix only.
module Chain {
  import opened Base
  import opened Tables
  import opened Oracle
  import opened Passes
  import Merkle
  import Codec

  // A chain of block hashes indexed by height; height 0 is the genesis block, which the blockheader
  // table never stores.
  ghost predicate IsChain(env: Env, genesis: Hash, chain: seq<Hash>) {
    && |chain| >= 1 && chain[0] == genesis
    && (forall i :: 0 < i < |chain| ==> env.blockOf(chain[i]).prev == chain[i - 1])
    && (forall i, j :: 0 <= i < |chain| && 0 <= j < |chain| && chain[i] == chain[j] ==> i == j)
  }

  // The blockheader table holds exactly heights 1 .. |chain| - 1.
  ghost predicate Stored(header: map<Hash, nat>, chain: seq<Hash>) {
    && |chain| >= 1
    && (forall i :: 1 <= i < |chain| ==> chain[i] in header && header[chain[i]] == i)
    && (forall b :: b in header ==> 1 <= header[b] < |chain| && chain[header[b]] == b)
  }

  // ---- Events of blocks ----

  function Row(env: Env, bh: Hash, pos: nat): TxRow
    requires pos < |env.blockOf(bh).txs|
  {
    TxRow(bh, pos, Codec.Flatten(Merkle.Branch(env.pairHash, Txids(env.blockOf(bh).txs), pos)))
  }

  function OutEvents(env: Env, bh: Hash, height: nat, pos: nat): (es: seq<Event>)
    requires pos < |env.blockOf(bh).txs|
    ensures |es| == |env.blockOf(bh).txs[pos].outs|
  {
    var tx := env.blockOf(bh).txs[pos];
    seq(|tx.outs|, j requires 0 <= j < |tx.outs| => Fund(height, tx.txid, Row(env, bh, pos), OutPoint(tx.txid, j), tx.outs[j]))
  }

  function InEvents(env: Env, bh: Hash, height: nat, pos: nat): (es: seq<Event>)
    requires pos < |env.blockOf(bh).txs|
    ensures |es| == |env.blockOf(bh).txs[pos].ins|
  {
    var tx := env.blockOf(bh).txs[pos];
    seq(|tx.ins|, j requires 0 <= j < |tx.ins| => Spend(height, tx.txid, Row(env, bh, pos), tx.ins[j]))
  }

  // The first n transactions of a block: for each, its outputs and then its inputs.
  function TxsEvents(env: Env, bh: Hash, height: nat, n: nat): seq<Event>
    requires n <= |env.blockOf(bh).txs|
  {
    if n == 0 then []
    else TxsEvents(env, bh, height, n - 1) + (OutEvents(env, bh, height, n - 1) + InEvents(env, bh, height, n - 1))
  }

  function BlockEvents(env: Env, bh: Hash, height: nat): seq<Event> {
    TxsEvents(env, bh, height, |env.blockOf(bh).txs|)
  }

  // The events of heights 1 .. t.
  function ChainEvents(env: Env, chain: seq<Hash>, t: nat): seq<Event>
    requires t < |chain|
  {
    if t == 0 then [] else ChainEvents(env, chain, t - 1) + BlockEvents(env, chain[t], t)
  }

  function All(env: Env, chain: seq<Hash>): seq<Event>
    requires |chain| >= 1
  {
    ChainEvents(env, chain, |chain| - 1)
  }

  // How many events lie at or below height t.
  function Pos(env: Env, chain: seq<Hash>, t: nat): (p: nat)
    requires |chain| >= 1
    ensures p <= |All(env, chain)|
  {
    ChainEventsPrefix(env, chain, Min(t, |chain| - 1), |chain| - 1);
    |ChainEvents(env, chain, Min(t, |chain| - 1))|
  }

  ghost predicate DistinctTxids(txs: seq<Tx>) {
    forall i, j :: 0 <= i < |txs| && 0 <= j < |txs| && txs[i].txid == txs[j].txid ==> i == j
  }

  ghost predicate ValidChain(env: Env, genesis: Hash, coin: OutPoint -> Utxo, chain: seq<Hash>) {
    && IsChain(env, genesis, chain)
    && Wf(coin, All(env, chain))
    && forall t :: 1 <= t < |chain| ==> DistinctTxids(env.blockOf(chain[t]).txs)
  }

  // ---- Prefixes ----

  lemma {:induction false} ChainEventsPrefix(env: Env, chain: seq<Hash>, t: nat, u: nat)
    requires t <= u < |chain|
    ensures |ChainEvents(env, chain, t)| <= |ChainEvents(env, chain, u)|
    ensures ChainEvents(env, chain, u)[..|ChainEvents(env, chain, t)|] == ChainEvents(env, chain, t)
    decreases u
  {
    if t < u {
      ChainEventsPrefix(env, chain, t, u - 1);
      var a, b := ChainEvents(env, chain, u - 1), ChainEvents(env, chain, u);
      assert b[..|a|] == a;
    }
  }

  lemma {:induction false} ChainEventsShared(env: Env, a: seq<Hash>, b: seq<Hash>, t: nat)
    requires t < |a| && t < |b| && a[..t + 1] == b[..t + 1]
    ensures ChainEvents(env, a, t) == ChainEvents(env, b, t)
  {
    assert a[t] == a[..t + 1][t] == b[t];
    if t > 0 {
      assert a[..t] == a[..t + 1][..t] == b[..t];
      ChainEventsShared(env, a, b, t - 1);
    }
  }

  // Chains that agree up to height t have the same position there and the same events before it.
  lemma SharedPosition(env: Env, a: seq<Hash>, b: seq<Hash>, f: nat, t: nat)
    requires t <= f < |a| && f < |b| && a[..f + 1] == b[..f + 1]
    ensures Pos(env, a, t) == Pos(env, b, t) <= |All(env, a)|
    ensures Pos(env, b, t) <= |All(env, b)|
    ensures All(env, a)[..Pos(env, a, t)] == All(env, b)[..Pos(env, b, t)] == ChainEvents(env, a, t)
  {
    hide BlockEvents;
    assert a[..t + 1] == a[..f + 1][..t + 1] == b[..t + 1];
    ChainEventsShared(env, a, b, t);
    ChainEventsPrefix(env, a, t, |a| - 1);
    ChainEventsPrefix(env, b, t, |b| - 1);
  }

  lemma PosOrder(env: Env, chain: seq<Hash>, t: nat, u: nat)
    requires |chain| >= 1 && t <= u
    ensures Pos(env, chain, t) <= Pos(env, chain, u) <= |All(env, chain)|
    ensures u >= |chain| - 1 ==> Pos(env, chain, u) == |All(env, chain)|
  {
    var n := |chain| - 1;
    ChainEventsPrefix(env, chain, Min(t, n), Min(u, n));
    ChainEventsPrefix(env, chain, Min(u, n), n);
  }

  // Block t's events stand between the positions of t - 1 and t.
  lemma BlockInChain(env: Env, chain: seq<Hash>, t: nat)
    requires 1 <= t < |chain|
    ensures Pos(env, chain, t - 1) <= Pos(env, chain, t) <= |All(env, chain)|
    ensures All(env, chain)[Pos(env, chain, t - 1)..Pos(env, chain, t)] == BlockEvents(env, chain[t], t)
  {
    ChainEventsPrefix(env, chain, t - 1, t);
    ChainEventsPrefix(env, chain, t, |chain| - 1);
    var e := All(env, chain);
    var p, q := Pos(env, chain, t - 1), Pos(env, chain, t);
    assert e[..q] == ChainEvents(env, chain, t);
    assert e[p..q] == e[..q][p..];
  }

  // ---- Heights and rows of events ----

  lemma {:induction false} TxsEventsFacts(env: Env, bh: Hash, height: nat, n: nat, k: nat)
    requires n <= |env.blockOf(bh).txs|
    requires k < |TxsEvents(env, bh, height, n)|
    ensures TxsEvents(env, bh, height, n)[k].height == height && TxsEvents(env, bh, height, n)[k].row.blockHash == bh
  {
    var before := TxsEvents(env, bh, height, n - 1);
    var outs := OutEvents(env, bh, height, n - 1);
    if k < |before| {
      TxsEventsFacts(env, bh, height, n - 1, k);
    } else if k < |before| + |outs| {
      assert TxsEvents(env, bh, height, n)[k] == outs[k - |before|];
      assert outs[k - |before|].row == Row(env, bh, n - 1);
    } else {
      var ins := InEvents(env, bh, height, n - 1);
      assert TxsEvents(env, bh, height, n)[k] == ins[k - |before| - |outs|];
      assert ins[k - |before| - |outs|].row == Row(env, bh, n - 1);
    }
  }

  lemma {:induction false} ChainEventsFacts(env: Env, chain: seq<Hash>, t: nat, k: nat)
    requires t < |chain| && k < |ChainEvents(env, chain, t)|
    ensures var e := ChainEvents(env, chain, t)[k]; 1 <= e.height <= t && e.row.blockHash == chain[e.height]
  {
    if t > 0 {
      if k < |ChainEvents(env, chain, t - 1)| {
        ChainEventsFacts(env, chain, t - 1, k);
      } else {
        TxsEventsFacts(env, chain[t], t, |env.blockOf(chain[t]).txs|, k - |ChainEvents(env, chain, t - 1)|);
      }
    }
  }

  // An event lies before the position of height h exactly when its height is at most h.
  lemma {:induction false} EventsCut(env: Env, chain: seq<Hash>, h: nat, t: nat, k: nat)
    requires h <= t < |chain| && k < |ChainEvents(env, chain, t)|
    ensures k < |ChainEvents(env, chain, h)| <==> ChainEvents(env, chain, t)[k].height <= h
    decreases t
  {
    if h == t {
      ChainEventsFacts(env, chain, t, k);
    } else if k < |ChainEvents(env, chain, t - 1)| {
      EventsCut(env, chain, h, t - 1, k);
    } else {
      TxsEventsFacts(env, chain[t], t, |env.blockOf(chain[t]).txs|, k - |ChainEvents(env, chain, t - 1)|);
      ChainEventsPrefix(env, chain, h, t - 1);
    }
  }

  // Every stored tx row's proof can be cut into a branch that proves the transaction's txid at its
  // position against the Merkle root of its block's txids.
  lemma RowProofVerifies(env: Env, bh: Hash, pos: nat, cut: seq<Hash>)
    requires pos < |env.blockOf(bh).txs| && Codec.Flatten(cut) == Row(env, bh, pos).proof
    ensures Merkle.Climb(env.pairHash, env.blockOf(bh).txs[pos].txid, pos, cut)
            == Merkle.Root(env.pairHash, Txids(env.blockOf(bh).txs))
  {
    Codec.StoredProofVerifies(env.pairHash, Txids(env.blockOf(bh).txs), pos, cut);
  }

  // ---- Two valid chains ----

  // If a stored hash is on the other chain, the two chains agree up to its height.
  lemma {:induction false} MemberMeansPrefix(env: Env, genesis: Hash, a: seq<Hash>, b: seq<Hash>, i: nat)
    requires IsChain(env, genesis, a) && IsChain(env, genesis, b)
    requires i < |a| && a[i] in b
    ensures i < |b| && a[..i + 1] == b[..i + 1]
  {
    var j :| 0 <= j < |b| && b[j] == a[i];
    if i == 0 {
      assert j == 0;
    } else {
      assert j != 0;
      assert a[i - 1] == b[j - 1];
      MemberMeansPrefix(env, genesis, a, b, i - 1);
      assert b[i - 1] == a[..i][i - 1] == b[..i][i - 1];
      assert j == i;
      assert a[..i + 1] == a[..i] + [a[i]] && b[..i + 1] == b[..i] + [b[i]];
    }
  }

  // Tables that describe a scan mean the same under any two chains sharing the scanned prefix.
  lemma MeaningShared(coin: OutPoint -> Utxo, es: seq<Event>, fs: seq<Event>, p: nat, r: set<OutPoint>)
    requires Wf(coin, es) && Wf(coin, fs) && p <= |es| && p <= |fs| && es[..p] == fs[..p] && r <= Funded(es, p)
    ensures r <= Funded(fs, p) && Meaning(coin, es, p, r) == Meaning(coin, fs, p, r)
  {
    hide Wf, RowOf, SpendHeight, Meaning;
    SharedSets(es, fs, p, r, coin);
    forall t | t in Relevant(es, p, r) ensures RowOf(es, t) == RowOf(fs, t) {
      var k :| 0 <= k < p && es[k].op in r && es[k].txid == t;
      RowOfAt(coin, es, k);
      assert es[k] == es[..p][k] == fs[k];
      RowOfAt(coin, fs, k);
    }
    FundedGrows(es, p, |es|);
    FundedGrows(fs, p, |fs|);
    forall o | o in r && o in SpentOps(es, p) ensures o in SpentOps(es, |es|) && o in SpentOps(fs, |fs|) && SpendHeight(es, o) == SpendHeight(fs, o) {
      var k :| 0 <= k < p && es[k].Spend? && es[k].op == o;
      SpendHeightAt(coin, es, k);
      assert es[k] == es[..p][k] == fs[k];
      SpendHeightAt(coin, fs, k);
    }
    FieldsShared(coin, es, fs, p, r);
    assert Meaning(coin, es, p, r) == Meaning(coin, fs, p, r) by { SameFields(coin, es, fs, p, r); }
  }

  lemma SameFields(coin: OutPoint -> Utxo, es: seq<Event>, fs: seq<Event>, p: nat, r: set<OutPoint>)
    requires p <= |es| && p <= |fs| && TxRows(es, p, r) == TxRows(fs, p, r) && ScriptTxs(coin, es, p, r) == ScriptTxs(coin, fs, p, r)
    requires Unspent(coin, es, p, r) == Unspent(coin, fs, p, r) && Spent(coin, es, p, r) == Spent(coin, fs, p, r)
    ensures Meaning(coin, es, p, r) == Meaning(coin, fs, p, r)
  {
    hide TxRows, ScriptTxs, Unspent, Spent;
  }

  // So do the tables of several passes, as long as none of them went past the shared prefix.
  lemma {:induction false} OverlayShared(coin: OutPoint -> Utxo, es: seq<Event>, fs: seq<Event>, n: nat, p: nat, marks: set<Mark>)
    requires Described(coin, es, p, marks) && Wf(coin, fs) && p <= n <= |es| && n <= |fs| && es[..n] == fs[..n]
    requires forall m :: m in marks ==> m.reach <= n
    ensures Described(coin, fs, p, marks) && Overlay(coin, es, marks) == Overlay(coin, fs, marks)
    decreases |marks|
  {
    hide Wf, Overlay, Meaning, Funded;
    DescribedShared(coin, es, fs, n, p, marks);
    if marks == {} {
      OverlayOfNothing(coin, es);
      OverlayOfNothing(coin, fs);
    } else {
      var m :| m in marks;
      var rest, one := marks - {m}, Single(m.reach, {m.op});
      assert one == {m};
      assert marks == rest + one;
      OverlayShared(coin, es, fs, n, p, rest);
      assert es[..m.reach] == es[..n][..m.reach] == fs[..n][..m.reach] == fs[..m.reach];
      MeaningShared(coin, es, fs, m.reach, {m.op});
      OverlayOfSingle(coin, es, m.reach, {m.op});
      OverlayOfSingle(coin, fs, m.reach, {m.op});
      OverlayAddsUp(coin, es, rest, one);
      OverlayAddsUp(coin, fs, rest, one);
    }
  }

  lemma FieldsShared(coin: OutPoint -> Utxo, es: seq<Event>, fs: seq<Event>, p: nat, r: set<OutPoint>)
    requires p <= |es| && p <= |fs|
    requires SpentOps(es, p) == SpentOps(fs, p) && Relevant(es, p, r) == Relevant(fs, p, r)
    requires forall t :: t in Relevant(es, p, r) ==> RowOf(es, t) == RowOf(fs, t)
    requires forall o :: o in r && o in SpentOps(es, p) ==> o in SpentOps(es, |es|) && o in SpentOps(fs, |fs|)
    requires forall o :: o in r && o in SpentOps(es, p) ==> SpendHeight(es, o) == SpendHeight(fs, o)
    ensures TxRows(es, p, r) == TxRows(fs, p, r)
    ensures Spent(coin, es, p, r) == Spent(coin, fs, p, r)
    ensures Unspent(coin, es, p, r) == Unspent(coin, fs, p, r)
  {
  }

  lemma SharedSets(es: seq<Event>, fs: seq<Event>, p: nat, r: set<OutPoint>, coin: OutPoint -> Utxo)
    requires p <= |es| && p <= |fs| && es[..p] == fs[..p]
    ensures Funded(es, p) == Funded(fs, p) && SpentOps(es, p) == SpentOps(fs, p)
    ensures Relevant(es, p, r) == Relevant(fs, p, r) && ScriptTxs(coin, es, p, r) == ScriptTxs(coin, fs, p, r)
  {
    forall k | 0 <= k < p ensures es[k] == fs[k] {
      assert es[k] == es[..p][k];
    }
  }
}
