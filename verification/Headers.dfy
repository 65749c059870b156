// The header protocol against a peer: what GetHeaders answers, the fork search of checkReorg, and
// why both are exact.
module Headers {
  import opened Base
  import opened Chain

  // A peer: its active chain and the most headers it sends at a time (Bitcoin's getheaders sends up
  // to 2000).
  datatype Peer = Peer(chain: seq<Hash>, batch: nat)

  ghost predicate GoodPeer(env: Env, genesis: Hash, p: Peer) {
    IsChain(env, genesis, p.chain) && p.batch >= 1
  }

  function IndexOf(s: seq<Hash>, h: Hash): (i: int)
    ensures i == -1 <==> h !in s
    ensures -1 <= i < |s|
    ensures i >= 0 ==> s[i] == h
  {
    if s == [] then -1
    else if s[|s| - 1] == h then |s| - 1
    else IndexOf(s[..|s| - 1], h)
  }

  // The hashes after the locator when it is on the active chain, else from height 1.
  function GetHeaders(p: Peer, loc: Hash): (hs: seq<Hash>)
    requires |p.chain| >= 1
  {
    var from := IndexOf(p.chain, loc) + 1;
    var start := if from == 0 then 1 else from;
    if start >= |p.chain| then [] else p.chain[start..Min(start + p.batch, |p.chain|)]
  }

  // What checkReorg comes to.
  datatype Verdict = NoReorg | Fork(height: nat) | PanicTooDeep | PanicNoHeader

  // The loop of checkReorg, about to look at height t.
  function Probe(env: Env, p: Peer, chain: seq<Hash>, t: nat): Verdict
    requires t < |chain| && |p.chain| >= 1
  {
    if |chain| - 1 - t > 6 then PanicTooDeep
    else if t == 0 then PanicNoHeader
    else
      var hs := GetHeaders(p, chain[t]);
      if hs == [] || env.blockOf(hs[0]).prev == chain[t] then Fork(t) else Probe(env, p, chain, t - 1)
  }

  function CheckReorgSpec(env: Env, p: Peer, chain: seq<Hash>): Verdict
    requires |chain| >= 1 && |p.chain| >= 1
  {
    if |chain| == 1 then NoReorg else Probe(env, p, chain, |chain| - 2)
  }

  // f is the last height the two chains share.
  ghost predicate ForkHeight(a: seq<Hash>, b: seq<Hash>, f: nat) {
    && f < |a| && f < |b| && a[..f + 1] == b[..f + 1]
    && forall i :: f < i < |a| ==> a[i] !in b
  }

  lemma GetHeadersOnChain(env: Env, genesis: Hash, p: Peer, i: nat)
    requires GoodPeer(env, genesis, p) && i < |p.chain|
    ensures GetHeaders(p, p.chain[i])
            == if i + 1 == |p.chain| then [] else p.chain[i + 1..Min(i + 1 + p.batch, |p.chain|)]
  {
    assert p.chain[i] in p.chain;
    assert IndexOf(p.chain, p.chain[i]) == i;
  }

  lemma GetHeadersOffChain(p: Peer, loc: Hash)
    requires |p.chain| >= 1 && loc !in p.chain
    ensures GetHeaders(p, loc) == if |p.chain| == 1 then [] else p.chain[1..Min(1 + p.batch, |p.chain|)]
  {
  }

  // The probe of one height answers whether that height is on the peer's chain.
  lemma ProbeDecides(env: Env, genesis: Hash, p: Peer, chain: seq<Hash>, t: nat)
    requires IsChain(env, genesis, chain) && GoodPeer(env, genesis, p) && |p.chain| >= 2 && 1 <= t < |chain|
    ensures var hs := GetHeaders(p, chain[t]);
            hs == [] || env.blockOf(hs[0]).prev == chain[t] <==> chain[t] in p.chain
  {
    if chain[t] in p.chain {
      MemberMeansPrefix(env, genesis, chain, p.chain, t);
      assert chain[t] == chain[..t + 1][t] == p.chain[t];
      GetHeadersOnChain(env, genesis, p, t);
    } else {
      GetHeadersOffChain(p, chain[t]);
      assert GetHeaders(p, chain[t])[0] == p.chain[1];
    }
  }

  lemma {:induction false} ProbeExact(env: Env, genesis: Hash, p: Peer, chain: seq<Hash>, t: nat, f: nat)
    requires IsChain(env, genesis, chain) && GoodPeer(env, genesis, p) && |p.chain| >= 2
    requires f <= t < |chain| && ForkHeight(chain, p.chain, f)
    ensures Probe(env, p, chain, t) == if |chain| - 1 - f > 6 then PanicTooDeep else if f == 0 then PanicNoHeader else Fork(f)
  {
    if t > 0 {
      ProbeDecides(env, genesis, p, chain, t);
      if t == f {
        assert chain[t] == chain[..t + 1][t] == p.chain[t];
      } else {
        ProbeExact(env, genesis, p, chain, t - 1, f);
      }
    }
  }

  // Fork finding is exact: against a peer that has left the stored tip behind, checkReorg answers
  // the last shared height if and only if that height is at least 1 and at most 6 below the tip;
  // deeper forks and forks at genesis are its two panics.
  lemma ForkFindingExact(env: Env, genesis: Hash, p: Peer, chain: seq<Hash>, f: nat)
    requires IsChain(env, genesis, chain) && GoodPeer(env, genesis, p) && |p.chain| >= 2
    requires chain[|chain| - 1] !in p.chain && ForkHeight(chain, p.chain, f)
    ensures CheckReorgSpec(env, p, chain)
            == if |chain| - 1 - f > 6 then PanicTooDeep else if f == 0 then PanicNoHeader else Fork(f)
    ensures CheckReorgSpec(env, p, chain) == Fork(f) <==> f >= 1 && |chain| - 1 <= f + 6
  {
    assert chain[f] == chain[..f + 1][f] == p.chain[..f + 1][f] == p.chain[f];
    ProbeExact(env, genesis, p, chain, |chain| - 2, f);
  }

  // Two chains from one genesis always have a last shared height.
  lemma {:induction false} ForkExists(env: Env, genesis: Hash, a: seq<Hash>, b: seq<Hash>, t: nat) returns (f: nat)
    requires IsChain(env, genesis, a) && IsChain(env, genesis, b)
    requires t < |a| && forall i :: t < i < |a| ==> a[i] !in b
    ensures f <= t && ForkHeight(a, b, f)
  {
    if a[t] in b {
      MemberMeansPrefix(env, genesis, a, b, t);
      f := t;
    } else {
      assert t != 0 by { assert b[0] in b; }
      f := ForkExists(env, genesis, a, b, t - 1);
    }
  }

  // ---- syncHeaders ----

  datatype SyncOutcome = UpToDate | Reorg(height: nat) | Unexpected | Panic | InsertFailed

  function OutcomeOf(v: Verdict): SyncOutcome {
    match v
    case NoReorg => Unexpected
    case Fork(h) => Reorg(h)
    case PanicTooDeep => Panic
    case PanicNoHeader => Panic
  }

  // What syncHeaders does to the stored chain against one peer, and how it ends.
  function SyncSpec(env: Env, p: Peer, chain: seq<Hash>): (seq<Hash>, SyncOutcome)
    requires |chain| >= 1 && |p.chain| >= 1
  {
    if chain[|chain| - 1] in p.chain then (p.chain, UpToDate)
    else if |p.chain| == 1 then (chain, UpToDate)
    else (chain, OutcomeOf(CheckReorgSpec(env, p, chain)))
  }

  // A peer that knows only genesis answers every locator with nothing, which the search would take for
  // a shared block. While it stands still syncHeaders has taken that answer for being up to date and
  // never searches; only a peer that falls back to genesis between the two calls misleads it.
  lemma GenesisOnlyPeer(env: Env, genesis: Hash, batch: nat, chain: seq<Hash>)
    requires IsChain(env, genesis, chain) && |chain| >= 3
    ensures SyncSpec(env, Peer([genesis], batch), chain) == (chain, UpToDate)
    ensures CheckReorgSpec(env, Peer([genesis], batch), chain) == Fork(|chain| - 2) && chain[|chain| - 2] !in [genesis]
  {
  }

  // A peer on the stored tip's branch is followed to its end; a peer off it is told apart exactly
  // when the code can roll back, and nothing else happens to the stored headers.
  lemma SyncOutcomes(env: Env, genesis: Hash, p: Peer, chain: seq<Hash>)
    requires IsChain(env, genesis, chain) && GoodPeer(env, genesis, p)
    ensures var (after, out) := SyncSpec(env, p, chain);
            && IsChain(env, genesis, after) && out != Unexpected && out != InsertFailed
            && |after| >= |chain| && after[..|chain|] == chain
            && (out.Reorg? ==> after == chain && 1 <= out.height < |chain| && ForkHeight(chain, p.chain, out.height))
  {
    var tip := |chain| - 1;
    if chain[tip] in p.chain {
      MemberMeansPrefix(env, genesis, chain, p.chain, tip);
      assert chain[..tip + 1] == chain;
    } else {
      assert chain[..|chain|] == chain;
      assert tip != 0 by { assert p.chain[0] in p.chain; }
      if |p.chain| > 1 {
        var f := ForkExists(env, genesis, chain, p.chain, tip);
        ForkFindingExact(env, genesis, p, chain, f);
      }
    }
  }
}
