// The server process from an empty database: the object built by New, run against a list of peers,
// ends with the oracle's tables.
module ServiceModule {
  import opened Base
  import opened Oracle
  import opened Derivation
  import opened Scan
  import opened Chain
  import opened Headers
  import opened System
  import opened Invariant
  import opened Runs
  import opened RepositoryModule
  import opened WalletManagerModule
  import Theorems

  lemma GoodChainTxids(w: World, chain: seq<Hash>)
    requires GoodChain(w, chain)
    ensures GoodTxids(w.env, chain)
  {
    hide Wf, IndexesOk, IsChain, DistinctTxids;
  }

  lemma PeerIsGood(w: World, peer: Peer)
    requires GoodAction(w, HeaderTick(peer))
    ensures |peer.chain| >= 1 && GoodPeer(w.env, w.genesis, peer) && GoodTxids(w.env, peer.chain)
  {
    hide Wf, IndexesOk, DistinctTxids;
    GoodChainTxids(w, peer.chain);
  }

  lemma GenesisStored(w: World)
    ensures IsChain(w.env, w.genesis, [w.genesis]) && Stored(map[], [w.genesis]) && GoodTxids(w.env, [w.genesis])
  {
  }

  // What any number of rounds from an empty database ends with.
  lemma RoundsEndAtOracle(w: World, births: seq<nat>, peers: seq<Peer>, end: Sys) returns (sc: Scope)
    requires 1 <= |births| <= |w.ids| && DistinctScripts(w.env, w.ids) && peers != []
    requires forall p :: p in peers ==> GoodAction(w, HeaderTick(p)) && |p.chain| >= 1
    requires var s := Theorems.Fresh(w, births);
             |s.chain| >= 1 && LabelsInRange(s.scan.keys) && Rounds(w.env, peers, s) == Some(end)
    ensures CaughtUp(end) && IsChain(w.env, w.genesis, end.chain)
    ensures RespectsGap(w, sc, end.chain) ==> end.scan.ledger == OracleLedger(w, sc.low, end.chain)
    ensures forall prefix ::
              (forall p :: p in peers ==> prefix <= p.chain) && MinHeight(NewWallets(w.ids, births, 0)) < |prefix| ==> sc == Theorems.FreshScope(w, births)
  {
    hide Inv, GoodAction, OnePass, RunAll, Rounds, CaughtUp, RespectsGap, OracleLedger, LabelsInRange, Theorems.Fresh, MinHeight;
    Theorems.FreshIsGood(w, births);
    var s, sc0 := Theorems.Fresh(w, births), Theorems.FreshScope(w, births);
    var acts, sc1, marks1 := RoundsAreARun(w, sc0, s, {}, peers);
    sc := sc1;
    InvBasics(w, sc1, end, marks1);
    if RespectsGap(w, sc1, end.chain) {
      CaughtUpIsOracle(w, sc1, end, marks1);
    }
    forall prefix | (forall p :: p in peers ==> prefix <= p.chain) && MinHeight(NewWallets(w.ids, births, 0)) < |prefix|
      ensures sc == sc0
    {
      LowStays(w, sc0, s, {}, acts, prefix);
    }
  }

  // The rounds from an empty database are defined.
  ghost predicate StartsWell(w: World, births: seq<nat>, peers: seq<Peer>) {
    |births| <= |w.ids| && |Theorems.Fresh(w, births).chain| >= 1 && LabelsInRange(Theorems.Fresh(w, births).scan.keys)
    && forall p :: p in peers ==> |p.chain| >= 1
  }

  // New over an empty database, then run: if no round ends in an error the tables are the oracle's,
  // above the heights the run came to follow the wallets from; above the lowest birth height if the
  // peers never disagreed at or below it.
  method Serve(w: World, sha: string -> Hash, rawHeader: Hash -> seq<byte>, births: seq<nat>, peers: seq<Peer>)
      returns (m: WalletManager, alive: bool, ghost sc: Scope)
    requires 1 <= |births| <= |w.ids| && DistinctScripts(w.env, w.ids) && peers != []
    requires forall p :: p in peers ==> GoodAction(w, HeaderTick(p))
    ensures fresh(m) && fresh(m.repo) && m.Valid() && m.HeadersOk() && m.env == w.env && |m.chain| >= 1
    ensures StartsWell(w, births, peers) && (alive <==> Rounds(w.env, peers, Theorems.Fresh(w, births)).Some?)
    ensures alive && RespectsGap(w, sc, m.chain) ==> m.repo.View() == OracleLedger(w, sc.low, m.chain)
    ensures alive ==> forall prefix ::
              (forall p :: p in peers ==> prefix <= p.chain) && MinHeight(NewWallets(w.ids, births, 0)) < |prefix| ==> sc == Theorems.FreshScope(w, births)
  {
    hide Inv, OnePass, Rounds, GoodAction, LabelsInRange, GoodTxids, Restart, IsChain, Stored, NoDuplicates, RowSet, RespectsGap, OracleLedger, CaughtUp, MinHeight, DistinctScripts;
    forall p | p in peers ensures |p.chain| >= 1 && GoodPeer(w.env, w.genesis, p) && GoodTxids(w.env, p.chain) {
      PeerIsGood(w, p);
    }
    NoRowsAtAll();
    var repo := new Repository(map[], map[], map[], [], map[], map[]);
    GenesisStored(w);
    ghost var s := Theorems.Fresh(w, births);
    Theorems.FreshIsGood(w, births);
    m := new WalletManager(w.env, w.genesis, sha, rawHeader, repo, w.ids[..|births|], births, [w.genesis]);
    assert Sys(m.chain, m.View({})) == s;
    alive := m.Run(peers);
    sc := Scope([], []);
    if alive {
      ghost var u :| Rounds(w.env, peers, s) == Some(Sys(m.chain, m.View(u)));
      sc := RoundsEndAtOracle(w, births, peers, Sys(m.chain, m.View(u)));
    }
  }

  lemma NoRowsAtAll()
    ensures NoDuplicates([]) && RowSet([]) == {}
  {
  }
}
