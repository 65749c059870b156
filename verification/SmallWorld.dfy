// One small world: two wallets and four chains that part after block 1.
module SmallWorld {
  import opened Base
  import opened Oracle
  import opened Derivation
  import opened Scan
  import opened Chain
  import opened Headers
  import opened Invariant
  import opened Runs

  // Block 1 pays index 0 of the first wallet. Chain A spends that output in block 2. Chain B pays the
  // same script again in block 12. Chain C pays the first wallet at its last index within the gap in
  // block 22 and the second wallet in block 23. Chain D pays the first wallet beyond that in block 32.
  const PAID: Utxo := Utxo(5, 0)
  const FAR: Utxo := Utxo(4, 4 * 1999)
  const OTHER: Utxo := Utxo(3, 1)
  const FARTHER: Utxo := Utxo(6, 4 * 2500)

  const COIN: OutPoint := OutPoint(101, 0)

  function Derive(hash: Hash, a: Account, i: nat): Hash {
    (4 * i + (if a.Change? then 2 else 0) + (if hash == 7 then 0 else 1)) % TWO_256
  }

  function CoinAt(o: OutPoint): Utxo {
    if o.txid == 122 then FAR else if o.txid == 123 then OTHER else if o.txid == 132 then FARTHER else PAID
  }

  function BlockAt(h: Hash): Block {
    if h == 1 then Block(1, 0, [Tx(101, [], [PAID])])
    else if h == 2 then Block(2, 1, [Tx(102, [COIN], [])])
    else if h == 12 then Block(12, 1, [Tx(112, [], [PAID])])
    else if h == 13 then Block(13, 12, [])
    else if h == 22 then Block(22, 1, [Tx(122, [], [FAR])])
    else if h == 23 then Block(23, 22, [Tx(123, [], [OTHER])])
    else if h == 32 then Block(32, 1, [Tx(132, [], [FARTHER])])
    else if h == 33 then Block(33, 32, [])
    else Block(h, 0, [])
  }

  function TheWorld(): World {
    World(Env((l, r) => l, Derive, BlockAt), 0, CoinAt, [7, 8])
  }

  function A(): Peer { Peer([0, 1, 2], 2000) }

  function B(): Peer { Peer([0, 1, 12, 13], 2000) }

  function C(): Peer { Peer([0, 1, 22, 23], 2000) }

  function D(): Peer { Peer([0, 1, 32, 33], 2000) }

  // ---- Its scripts ----

  lemma SmallScript(x: Info)
    requires x.walletIdx < 2 && x.idx < TWO_32
    ensures Script(TheWorld().env, TheWorld().ids, x) == 4 * x.idx + (if x.account.Change? then 2 else 0) + x.walletIdx
  {
  }

  lemma ScriptsDiffer()
    ensures DistinctScripts(TheWorld().env, TheWorld().ids)
  {
    var w := TheWorld();
    forall x: Info, y: Info | x.walletIdx < 2 && y.walletIdx < 2 && x.idx < TWO_32 && y.idx < TWO_32 &&
                              Script(w.env, w.ids, x) == Script(w.env, w.ids, y)
      ensures x == y
    {
      SmallScript(x);
      SmallScript(y);
    }
  }

  lemma OwnerOf(x: Info, sh: Hash)
    requires x.walletIdx < 2 && x.idx < TWO_32 && sh == 4 * x.idx + (if x.account.Change? then 2 else 0) + x.walletIdx
    ensures Owner(TheWorld().env, TheWorld().ids, sh) == Some(x)
  {
    ScriptsDiffer();
    SmallScript(x);
    OwnerIs(TheWorld().env, TheWorld().ids, x, sh);
  }

  lemma Owners()
    ensures var w := TheWorld();
            && Owner(w.env, w.ids, 0) == Some(Info(0, Receive, 0)) && Owner(w.env, w.ids, 4 * 1999) == Some(Info(0, Receive, 1999))
            && Owner(w.env, w.ids, 1) == Some(Info(1, Receive, 0)) && Owner(w.env, w.ids, 4 * 2500) == Some(Info(0, Receive, 2500))
  {
    hide Owner;
    OwnerOf(Info(0, Receive, 0), 0);
    OwnerOf(Info(0, Receive, 1999), 4 * 1999);
    OwnerOf(Info(1, Receive, 0), 1);
    OwnerOf(Info(0, Receive, 2500), 4 * 2500);
  }

  // ---- Its events ----

  lemma OneOutput(env: Env, bh: Hash, height: nat, t: Hash, u: Utxo)
    requires env.blockOf(bh).txs == [Tx(t, [], [u])]
    ensures BlockEvents(env, bh, height) == [Fund(height, t, Row(env, bh, 0), OutPoint(t, 0), u)]
  {
    assert TxsEvents(env, bh, height, 0) == [];
    assert OutEvents(env, bh, height, 0) == [Fund(height, t, Row(env, bh, 0), OutPoint(t, 0), u)];
    assert InEvents(env, bh, height, 0) == [];
  }

  lemma OneInput(env: Env, bh: Hash, height: nat, t: Hash, o: OutPoint)
    requires env.blockOf(bh).txs == [Tx(t, [o], [])]
    ensures BlockEvents(env, bh, height) == [Spend(height, t, Row(env, bh, 0), o)]
  {
    assert TxsEvents(env, bh, height, 0) == [];
    assert OutEvents(env, bh, height, 0) == [];
    assert InEvents(env, bh, height, 0) == [Spend(height, t, Row(env, bh, 0), o)];
  }

  lemma NoTx(env: Env, bh: Hash, height: nat)
    requires env.blockOf(bh).txs == []
    ensures BlockEvents(env, bh, height) == []
  {
  }

  // Output 0 of transaction 100 + h in block h.
  function Paying(h: Hash, height: nat, u: Utxo): Event
    requires h < 100 && |BlockAt(h).txs| >= 1
  {
    Fund(height, 100 + h, Row(TheWorld().env, h, 0), OutPoint(100 + h, 0), u)
  }

  function EventsOfA(): seq<Event> {
    [Paying(1, 1, PAID), Spend(2, 102, Row(TheWorld().env, 2, 0), COIN)]
  }

  function EventsOfB(): seq<Event> {
    [Paying(1, 1, PAID), Paying(12, 2, PAID)]
  }

  function EventsOfC(): seq<Event> {
    [Paying(1, 1, PAID), Paying(22, 2, FAR), Paying(23, 3, OTHER)]
  }

  function EventsOfD(): seq<Event> {
    [Paying(1, 1, PAID), Paying(32, 2, FARTHER)]
  }

  // Block by block.
  lemma ThreeBlocks(env: Env, chain: seq<Hash>, a: seq<Event>, b: seq<Event>, c: seq<Event>)
    requires 3 <= |chain| <= 4 && BlockEvents(env, chain[1], 1) == a && BlockEvents(env, chain[2], 2) == b
    requires if |chain| == 4 then BlockEvents(env, chain[3], 3) == c else c == []
    ensures All(env, chain) == a + b + c && Pos(env, chain, 0) == 0 && Pos(env, chain, 1) == |a|
  {
    hide BlockEvents;
    assert ChainEvents(env, chain, 0) == [];
    assert ChainEvents(env, chain, 1) == a;
    assert ChainEvents(env, chain, 2) == a + b;
  }

  lemma AllOfA()
    ensures All(TheWorld().env, A().chain) == EventsOfA() && Pos(TheWorld().env, A().chain, 0) == 0 && Pos(TheWorld().env, A().chain, 1) == 1
  {
    hide BlockEvents, Row, All, Pos;
    OneOutput(TheWorld().env, 1, 1, 101, PAID);
    OneInput(TheWorld().env, 2, 2, 102, COIN);
    ThreeBlocks(TheWorld().env, A().chain, EventsOfA()[..1], EventsOfA()[1..], []);
  }

  lemma AllOfB()
    ensures All(TheWorld().env, B().chain) == EventsOfB()
  {
    hide BlockEvents, Row, All, Pos;
    OneOutput(TheWorld().env, 1, 1, 101, PAID);
    OneOutput(TheWorld().env, 12, 2, 112, PAID);
    NoTx(TheWorld().env, 13, 3);
    ThreeBlocks(TheWorld().env, B().chain, EventsOfB()[..1], EventsOfB()[1..], []);
  }

  lemma AllOfC()
    ensures All(TheWorld().env, C().chain) == EventsOfC() && Pos(TheWorld().env, C().chain, 0) == 0
  {
    hide BlockEvents, Row, All, Pos;
    OneOutput(TheWorld().env, 1, 1, 101, PAID);
    OneOutput(TheWorld().env, 22, 2, 122, FAR);
    OneOutput(TheWorld().env, 23, 3, 123, OTHER);
    ThreeBlocks(TheWorld().env, C().chain, EventsOfC()[..1], EventsOfC()[1..2], EventsOfC()[2..]);
  }

  lemma AllOfD()
    ensures All(TheWorld().env, D().chain) == EventsOfD() && Pos(TheWorld().env, D().chain, 0) == 0 && Pos(TheWorld().env, D().chain, 1) == 1
  {
    hide BlockEvents, Row, All, Pos;
    OneOutput(TheWorld().env, 1, 1, 101, PAID);
    OneOutput(TheWorld().env, 32, 2, 132, FARTHER);
    NoTx(TheWorld().env, 33, 3);
    ThreeBlocks(TheWorld().env, D().chain, EventsOfD()[..1], EventsOfD()[1..], []);
  }

  // ---- Its chains are valid ----

  // Payments by different transactions, and at most a last event that spends the first of them.
  lemma FewEvents(coin: OutPoint -> Utxo, es: seq<Event>)
    requires 1 <= |es| <= 3 && es[0].Fund? && forall j, k :: 0 <= j < k < |es| ==> es[j].txid != es[k].txid
    requires forall k :: 0 <= k < |es| && es[k].Fund? ==> es[k].utxo == coin(es[k].op) && es[k].op.txid == es[k].txid
    requires forall k :: 0 <= k < |es| && es[k].Spend? ==> k == |es| - 1 && es[k].op == es[0].op
    ensures Wf(coin, es)
  {
  }

  ghost predicate IsOurs(p: Peer) {
    p == A() || p == B() || p == C() || p == D()
  }

  function EventsOf(p: Peer): seq<Event>
    requires IsOurs(p)
  {
    if p == A() then EventsOfA() else if p == B() then EventsOfB() else if p == C() then EventsOfC() else EventsOfD()
  }

  lemma AllOf(p: Peer)
    requires IsOurs(p)
    ensures All(TheWorld().env, p.chain) == EventsOf(p)
  {
    hide All, Pos, EventsOfA, EventsOfB, EventsOfC, EventsOfD;
    AllOfA();
    AllOfB();
    AllOfC();
    AllOfD();
  }

  lemma EventsAreValid(p: Peer)
    requires IsOurs(p)
    ensures Wf(TheWorld().coin, EventsOf(p)) && IndexesOk(TheWorld().env, TheWorld().ids, EventsOf(p))
  {
    hide Row, BlockAt, Wf, Owner;
    FewEvents(TheWorld().coin, EventsOf(p));
    Owners();
  }

  // Distinct hashes, each block naming the one before.
  lemma IsLinked(env: Env, chain: seq<Hash>)
    requires 3 <= |chain| <= 4 && chain[0] == 0 && chain[0] < chain[1] < chain[2] && (|chain| == 4 ==> chain[2] < chain[3])
    requires env.blockOf(chain[1]).prev == chain[0] && env.blockOf(chain[2]).prev == chain[1] && (|chain| == 4 ==> env.blockOf(chain[3]).prev == chain[2])
    ensures IsChain(env, 0, chain)
  {
  }

  lemma OneTxEach(h: Hash)
    ensures DistinctTxids(BlockAt(h).txs)
  {
  }

  lemma Linked(p: Peer)
    requires IsOurs(p)
    ensures IsChain(TheWorld().env, 0, p.chain) && forall t :: 1 <= t < |p.chain| ==> DistinctTxids(TheWorld().env.blockOf(p.chain[t]).txs)
  {
    hide IsChain, DistinctTxids;
    IsLinked(TheWorld().env, p.chain);
    forall t | 1 <= t < |p.chain| ensures DistinctTxids(TheWorld().env.blockOf(p.chain[t]).txs) {
      OneTxEach(p.chain[t]);
    }
  }

  lemma OursIsGood(p: Peer)
    requires IsOurs(p)
    ensures GoodAction(TheWorld(), HeaderTick(p)) && |p.chain| >= 1
  {
    hide All, Wf, IndexesOk, IsChain, DistinctTxids, EventsOf;
    Linked(p);
    AllOf(p);
    EventsAreValid(p);
  }

  lemma PartAtOne(p: Peer, q: Peer)
    requires IsOurs(p) && IsOurs(q) && p != q
    ensures ForkHeight(p.chain, q.chain, 1)
  {
  }

  // Only chain D ever goes beyond a gap.
  lemma GapRespected(p: Peer, start: seq<Wallet>, low: seq<nat>)
    requires (p == A() || p == B() || p == C()) && |start| == |low|
    ensures RespectsGap(TheWorld(), Scope(start, low), p.chain)
  {
    hide All, Row, Owner, Used, Pos, BlockAt;
    AllOfA();
    AllOfB();
    AllOfC();
    Owners();
  }
}
