// Whole runs: any interleaving of header ticks against any peers, committed blocks and restarts.
// When they have caught up with a gap-respecting chain, the tables depend on that chain and on the
// heights the wallets are followed from, not on the path.
module Runs {
  import opened Base
  import opened Tables
  import opened Oracle
  import opened Passes
  import opened Derivation
  import opened Scan
  import opened Chain
  import opened Headers
  import opened System
  import opened Invariant
  import RollbackProof

  // ---- The blockheader table of a chain ----

  function HeaderTable(chain: seq<Hash>): map<Hash, nat>
    requires |chain| >= 1
  {
    map b | b in chain[1..] :: IndexOf(chain, b) as nat
  }

  lemma HeaderTableIsStored(env: Env, genesis: Hash, chain: seq<Hash>)
    requires IsChain(env, genesis, chain)
    ensures Stored(HeaderTable(chain), chain)
  {
    forall i | 1 <= i < |chain| ensures chain[i] in HeaderTable(chain) && HeaderTable(chain)[chain[i]] == i {
      assert chain[1..][i - 1] == chain[i];
    }
    forall b | b in HeaderTable(chain) ensures 1 <= HeaderTable(chain)[b] < |chain| && chain[HeaderTable(chain)[b]] == b {
      var j :| 0 <= j < |chain| - 1 && chain[1..][j] == b;
      assert chain[j + 1] == b;
    }
  }

  lemma StoredIsDetermined(a: map<Hash, nat>, b: map<Hash, nat>, chain: seq<Hash>)
    requires Stored(a, chain) && Stored(b, chain)
    ensures a == b
  {
  }

  // ---- Restart ----

  lemma EmptyWindow(env: Env)
    ensures Window(env, Keys([], map[]))
  {
  }

  lemma WalletFromRow(w: World, sc: Scope, s: Scan, i: nat)
    requires KeysGood(w, sc, s) && i < |s.keys.wallets|
    ensures var wl := s.keys.wallets[i];
            && wl.hash == w.ids[i] && wl.hash in s.rows && s.rows[wl.hash] == WalletRow(wl.height, wl.nextReceive, wl.nextChange)
            && wl == Wallet(wl.hash, wl.height, wl.nextReceive, wl.nextReceive + GAP, wl.nextChange, wl.nextChange + GAP)
            && wl.nextReceive <= MAX_INDEX && wl.nextChange <= MAX_INDEX
  {
    assert FullAt(s.keys, i, Receive) && FullAt(s.keys, i, Change);
    assert Ids(s.keys.wallets)[i] == s.keys.wallets[i].hash;
  }

  lemma DistinctPrefix(env: Env, ids: seq<Hash>, n: nat)
    requires DistinctScripts(env, ids) && n <= |ids|
    ensures DistinctScripts(env, ids[..n])
    ensures n > 0 ==> ids[..n] == ids[..n - 1] + [ids[n - 1]]
  {
    forall x: Info | x.walletIdx < n ensures Script(env, ids[..n], x) == Script(env, ids, x) {
    }
  }

  // Setting up the wallets that have a row gives them back as they were.
  lemma {:induction false} SetupRebuilds(w: World, sc: Scope, births: seq<nat>, s: Scan, n: nat)
    requires KeysGood(w, sc, s) && n <= |s.keys.wallets| && n <= |births| <= |w.ids|
    ensures var (ks, rows) := Setup(w.env, w.ids[..|births|], births, s.rows, n);
            rows == s.rows && Window(w.env, ks) && ks.wallets == s.keys.wallets[..n]
  {
    hide Labelled, DistinctScripts, IndexesOk, RowsAgree, StartBelow, FullAt, AddWallet, LabelsInRange;
    if n == 0 {
      EmptyWindow(w.env);
    } else {
      SetupRebuilds(w, sc, births, s, n - 1);
      var (ks, rows) := Setup(w.env, w.ids[..|births|], births, s.rows, n - 1);
      var wl := s.keys.wallets[n - 1];
      WalletFromRow(w, sc, s, n - 1);
      assert w.ids[..|births|][n - 1] == wl.hash;
      DistinctPrefix(w.env, w.ids, n);
      assert Ids(ks.wallets) == w.ids[..n - 1] by { PrefixIds(w, sc, s, n - 1); }
      AddWalletKeepsWindow(w.env, ks, wl.hash, wl.height, wl.nextReceive, wl.nextChange);
      assert s.keys.wallets[..n] == s.keys.wallets[..n - 1] + [wl];
    }
  }

  lemma PrefixIds(w: World, sc: Scope, s: Scan, n: nat)
    requires KeysGood(w, sc, s) && n <= |s.keys.wallets|
    ensures Ids(s.keys.wallets[..n]) == w.ids[..n]
  {
    forall i | 0 <= i < n ensures s.keys.wallets[i].hash == w.ids[i] {
      assert Ids(s.keys.wallets)[i] == w.ids[..|s.keys.wallets|][i];
    }
  }

  // Setting up the wallets beyond them adds each with a row and its first gap.
  lemma {:induction false} SetupAdds(w: World, sc: Scope, births: seq<nat>, s: Scan, n: nat)
    requires KeysGood(w, sc, s) && |s.keys.wallets| <= n <= |births| <= |w.ids|
    ensures var (ks, rows) := Setup(w.env, w.ids[..|births|], births, s.rows, n);
            && Window(w.env, ks) && RowsAgree(ks.wallets, rows) && Ids(ks.wallets) == w.ids[..n]
            && ks.wallets == s.keys.wallets + NewWallets(w.ids, births, |s.keys.wallets|)[..n - |s.keys.wallets|]
  {
    hide Labelled, DistinctScripts, IndexesOk, RowsAgree, StartBelow, FullAt, AddWallet, LabelsInRange;
    var n0 := |s.keys.wallets|;
    if n == n0 {
      SetupRebuilds(w, sc, births, s, n);
      PrefixIds(w, sc, s, n);
      assert s.keys.wallets[..n] == s.keys.wallets;
    } else {
      SetupAdds(w, sc, births, s, n - 1);
      var (ks, rows) := Setup(w.env, w.ids[..|births|], births, s.rows, n - 1);
      var hash := w.ids[n - 1];
      var wl := Wallet(hash, births[n - 1], 0, GAP, 0, GAP);
      assert w.ids[..|births|][n - 1] == hash;
      NoRowYet(w.env, w.ids, ks.wallets, rows, n - 1);
      DistinctPrefix(w.env, w.ids, n);
      AddWalletKeepsWindow(w.env, ks, hash, births[n - 1], 0, 0);
      RowsAgreeAppend(ks.wallets, rows, wl);
      assert Ids(ks.wallets + [wl]) == w.ids[..n];
      var added := NewWallets(w.ids, births, n0);
      assert added[..n - n0] == added[..n - 1 - n0] + [wl];
    }
  }

  lemma NoRowYet(env: Env, ids: seq<Hash>, wallets: seq<Wallet>, rows: map<Hash, WalletRow>, n: nat)
    requires DistinctScripts(env, ids) && n < |ids| && Ids(wallets) == ids[..n] && RowsAgree(wallets, rows)
    ensures ids[n] !in rows
  {
    IdsDistinct(env, ids);
    forall i | 0 <= i < n ensures ids[..n][i] != ids[n] {
    }
  }

  lemma RowsAgreeAppend(wallets: seq<Wallet>, rows: map<Hash, WalletRow>, wl: Wallet)
    requires RowsAgree(wallets, rows) && wl.hash !in rows
    ensures RowsAgree(wallets + [wl], rows[wl.hash := WalletRow(wl.height, wl.nextReceive, wl.nextChange)])
  {
    assert Ids(wallets + [wl]) == Ids(wallets) + [wl.hash];
  }

  lemma WindowLabels(env: Env, ks: Keys)
    requires Window(env, ks)
    ensures LabelsInRange(ks)
  {
    forall sh | sh in ks.watch ensures ks.watch[sh].walletIdx < |ks.wallets| {
      assert InWindow(ks, ks.watch[sh]);
    }
  }

  // A restart, possibly with more wallets: those there were as they were, each new one with a row and
  // its first gap, no table changed.
  lemma RestartAdds(w: World, sc: Scope, sys: Sys, births: seq<nat>)
    requires KeysGood(w, sc, sys.scan) && |sys.scan.keys.wallets| <= |births| <= |w.ids|
    ensures var after := Restart(w.env, w.ids[..|births|], births, sys).scan;
            && after.ledger == sys.scan.ledger.(index := sys.scan.ledger.unspent) && after.updated == {}
            && after.keys.wallets == sys.scan.keys.wallets + NewWallets(w.ids, births, |sys.scan.keys.wallets|)
            && KeysGood(w, MoreScope(sc, after.keys.wallets), after)
  {
    hide Window, DistinctScripts, RowsAgree, Setup, LabelsInRange, MinHeight;
    SetupAdds(w, sc, births, sys.scan, |births|);
    var ids := w.ids[..|births|];
    assert |ids| == |births|;
    var (ks, rows) := Setup(w.env, ids, births, sys.scan.rows, |births|);
    var added := NewWallets(w.ids, births, |sys.scan.keys.wallets|);
    assert added[..|added|] == added;
    WindowLabels(w.env, ks);
    StartAdds(sc, sys.scan.keys.wallets, added);
  }

  lemma StartAdds(sc: Scope, wallets: seq<Wallet>, added: seq<Wallet>)
    requires StartBelow(sc.start, wallets) && |sc.low| == |wallets| >= 1
    ensures StartBelow(MoreScope(sc, wallets + added).start, wallets + added)
  {
    hide MinHeight;
  }

  lemma LowestOfMore(a: seq<Wallet>, b: seq<Wallet>)
    requires |a| >= 1
    ensures MinHeight(a + b) <= MinHeight(a)
  {
    hide MinHeight;
    var i :| 0 <= i < |a| && MinHeight(a) == a[i].height;
    assert (a + b)[i] == a[i];
  }

  // Any restart keeps the invariant; the next pass begins where the lowest wallet stands.
  lemma RestartKeepsInv(w: World, sc: Scope, sys: Sys, marks: set<Mark>, births: seq<nat>)
    requires |sys.chain| >= 1 && |sys.scan.keys.wallets| <= |births| <= |w.ids|
    requires Inv(w, sc, sys, marks)
    ensures var after := Restart(w.env, w.ids[..|births|], births, sys);
            after.chain == sys.chain && Inv(w, ScopeAfter(w.env, w.ids, sys, sc, Reboot(births)), after, marks)
  {
    hide GoodChain, KeysGood, CompleteUpTo, LedgerGood, Placed, MinHeight, Restart;
    InvBasics(w, sc, sys, marks);
    var after := Restart(w.env, w.ids[..|births|], births, sys);
    RestartAdds(w, sc, sys, births);
    RestartChain(w.env, w.ids[..|births|], births, sys);
    var added := NewWallets(w.ids, births, |sys.scan.keys.wallets|);
    LowestOfMore(sys.scan.keys.wallets, added);
    assert sys.scan.ledger.(index := sys.scan.ledger.unspent) == sys.scan.ledger;
    MoreKeepInv(w, sc, sys, marks, after.scan);
  }

  lemma RestartChain(env: Env, ids: seq<Hash>, births: seq<nat>, sys: Sys)
    requires |ids| == |births|
    ensures Restart(env, ids, births, sys).chain == sys.chain
  {
  }

  // Rebuilding from the database gives back exactly what was in memory: wallets, watched scripts
  // and unspent outputs.
  lemma RestartRestores(w: World, sc: Scope, births: seq<nat>, sys: Sys, marks: set<Mark>)
    requires Inv(w, sc, sys, marks) && |births| == |sys.scan.keys.wallets|
    ensures |births| <= |w.ids| && Restart(w.env, w.ids[..|births|], births, sys) == Quiet(sys)
  {
    hide Wf, ValidChain, IndexesOk, CompleteUpTo, LedgerGood, Placed, DistinctScripts, RowsAgree, LabelsInRange, AddWallet;
    InvBasics(w, sc, sys, marks);
    SetupRebuilds(w, sc, births, sys.scan, |births|);
    var (ks, rows) := Setup(w.env, w.ids[..|births|], births, sys.scan.rows, |births|);
    assert ks.wallets == sys.scan.keys.wallets;
    WatchIsDetermined(w.env, ks, sys.scan.keys);
  }

  lemma InvBasics(w: World, sc: Scope, sys: Sys, marks: set<Mark>)
    requires Inv(w, sc, sys, marks)
    ensures |sys.chain| >= 1 && LabelsInRange(sys.scan.keys) && 1 <= |sys.scan.keys.wallets| <= |w.ids|
    ensures |sc.start| == |sc.low| == |sys.scan.keys.wallets| && FollowedAt(sc.low, MinHeight(sys.scan.keys.wallets))
    ensures IsChain(w.env, w.genesis, sys.chain) && sys.scan.ledger.index == sys.scan.ledger.unspent && KeysGood(w, sc, sys.scan)
  {
    hide Wf, IndexesOk, CompleteUpTo, MinHeight, DistinctScripts, Window, RowsAgree, LabelsInRange, All, Pos;
  }

  lemma InvGood(w: World, sc: Scope, sys: Sys, marks: set<Mark>)
    requires Inv(w, sc, sys, marks)
    ensures GoodChain(w, sys.chain)
  {
  }

  // ---- Actions and runs ----

  datatype Action =
    | HeaderTick(peer: Peer)       // syncHeaders, and processReorg when it reports a reorg
    | ScanBlock                    // one committed block of syncWallets
    | Reboot(births: seq<nat>)     // a new process over the same database; wallets may have been added

  // None when the process panics or stops with an error.
  function Act(env: Env, ids: seq<Hash>, sys: Sys, a: Action): (r: Option<Sys>)
    requires |sys.chain| >= 1 && LabelsInRange(sys.scan.keys)
    requires a.HeaderTick? ==> |a.peer.chain| >= 1
  {
    match a
    case HeaderTick(peer) => TickHeaders(env, peer, sys)
    case ScanBlock => Some(if CanScan(sys) then ScanOne(env, sys) else sys)
    case Reboot(births) =>
      // a run takes no wallet out of the configuration; Theorems.FewerWallets says what a restart that does leaves
      if |sys.scan.keys.wallets| <= |births| <= |ids| then Some(Restart(env, ids[..|births|], births, sys)) else None
  }

  // A rollback whose plain INSERT collides ends the process with an error.
  function TickHeaders(env: Env, peer: Peer, sys: Sys): Option<Sys>
    requires |sys.chain| >= 1 && |peer.chain| >= 1
  {
    var (after, out) := SyncSpec(env, peer, sys.chain);
    var s := Quiet(sys);
    match out
    case UpToDate => Some(Sys(after, s.scan))
    case Reorg(h) =>
      if h < |sys.chain| && RollbackAllowed(sys.scan.ledger, h) then Some(ProcessReorg(s, HeaderTable(sys.chain), h)) else None
    case _ => None
  }

  // Nobody notified since.
  function Quiet(sys: Sys): Sys {
    sys.(scan := sys.scan.(updated := {}))
  }

  lemma QuietKeepsInv(w: World, sc: Scope, sys: Sys, marks: set<Mark>)
    requires Inv(w, sc, sys, marks)
    ensures Inv(w, sc, Quiet(sys), marks)
  {
    hide GoodChain, KeysOk, RowsAgree, LabelsInRange, StartBelow, LedgerGood, CompleteUpTo, MinHeight, All, Pos;
  }

  ghost predicate GoodAction(w: World, a: Action) {
    a.HeaderTick? ==> a.peer.batch >= 1 && GoodChain(w, a.peer.chain)
  }

  // A rollback below where a wallet was followed from makes it followed from the fork on; a pass begun
  // lower, for a wallet that was added, follows every wallet from there on.
  function ScopeAfter(env: Env, ids: seq<Hash>, sys: Sys, sc: Scope, a: Action): Scope
    requires |sys.chain| >= 1 && (a.HeaderTick? ==> |a.peer.chain| >= 1)
  {
    match a
    case HeaderTick(peer) =>
      var (after, out) := SyncSpec(env, peer, sys.chain);
      if out.Reorg? then Scope(sc.start, LoweredLow(sc.low, out.height)) else sc
    case ScanBlock => sc
    case Reboot(births) =>
      if |sys.scan.keys.wallets| <= |births| <= |ids| then
        var wallets := Restart(env, ids[..|births|], births, sys).scan.keys.wallets;
        if |sc.start| == |sc.low| <= |wallets| && |wallets| >= 1 then MoreScope(sc, wallets) else sc
      else sc
  }

  // The passes after a header round.
  ghost function MarksAfterTick(w: World, sys: Sys, marks: set<Mark>, peer: Peer): set<Mark>
    requires |sys.chain| >= 1 && |peer.chain| >= 1
  {
    var (after, out) := SyncSpec(w.env, peer, sys.chain);
    if out.Reorg? then RollbackProof.Cut(All(w.env, sys.chain), Pos(w.env, sys.chain, out.height), marks) else marks
  }

  lemma TickKeepsInv(w: World, sc: Scope, sys: Sys, marks: set<Mark>, peer: Peer)
    requires Inv(w, sc, sys, marks) && GoodAction(w, HeaderTick(peer))
    ensures |sys.chain| >= 1 && |peer.chain| >= 1
    ensures var after := TickHeaders(w.env, peer, sys);
            after.Some? ==> Inv(w, ScopeAfter(w.env, w.ids, sys, sc, HeaderTick(peer)), after.value, MarksAfterTick(w, sys, marks, peer))
  {
    hide Wf, KeysOk, RowsAgree, IndexesOk, CompleteUpTo, LedgerGood, Rollback, Pos, All, RollbackAllowed, Placed, LabelsInRange, MinHeight, RollbackProof.Cut;
    SyncOutcomes(w.env, w.genesis, peer, sys.chain);
    var (after, out) := SyncSpec(w.env, peer, sys.chain);
    QuietKeepsInv(w, sc, sys, marks);
    if out.UpToDate? {
      ExtendKeepsInv(w, sc, Quiet(sys), marks, after);
    } else if out.Reorg? {
      HeaderTableIsStored(w.env, w.genesis, sys.chain);
      ReorgKeepsInv(w, sc, Quiet(sys), marks, HeaderTable(sys.chain), out.height);
    }
  }

  // The passes after an action.
  ghost function MarksAfter(w: World, sys: Sys, marks: set<Mark>, a: Action): set<Mark>
    requires |sys.chain| >= 1 && (a.HeaderTick? ==> |a.peer.chain| >= 1)
  {
    match a
    case HeaderTick(peer) => MarksAfterTick(w, sys, marks, peer)
    case ScanBlock => if CanScan(sys) then AfterBlock(w, sys, marks) else marks
    case Reboot(births) => marks
  }

  lemma ActKeepsInv(w: World, sc: Scope, sys: Sys, marks: set<Mark>, a: Action)
    requires Inv(w, sc, sys, marks) && GoodAction(w, a)
    ensures |sys.chain| >= 1 && LabelsInRange(sys.scan.keys) && (a.HeaderTick? ==> |a.peer.chain| >= 1)
    ensures var after := Act(w.env, w.ids, sys, a);
            after.Some? ==> Inv(w, ScopeAfter(w.env, w.ids, sys, sc, a), after.value, MarksAfter(w, sys, marks, a))
  {
    hide Inv, TickHeaders, Restart, ScanOne, MinHeight, MarksAfterTick, AfterBlock, LabelsInRange, GoodChain;
    InvBasics(w, sc, sys, marks);
    match a
    case HeaderTick(peer) =>
      TickKeepsInv(w, sc, sys, marks, peer);
    case ScanBlock =>
      if CanScan(sys) {
        BlockKeepsInv(w, sc, sys, marks);
      }
    case Reboot(births) =>
      if |sys.scan.keys.wallets| <= |births| <= |w.ids| {
        RestartKeepsInv(w, sc, sys, marks, births);
        RestartAdds(w, sc, sys, births);
      }
  }

  // What the run comes to, and from where on each wallet is then followed.
  ghost function RunAll(w: World, sys: Sys, sc: Scope, acts: seq<Action>): Option<(Sys, Scope)>
    requires |sys.chain| >= 1 && LabelsInRange(sys.scan.keys)
    requires forall a :: a in acts ==> GoodAction(w, a)
    decreases |acts|
  {
    if acts == [] then Some((sys, sc))
    else
      var before := RunAll(w, sys, sc, acts[..|acts| - 1]);
      var a := acts[|acts| - 1];
      if before.None? || |before.value.0.chain| < 1 || !LabelsInRange(before.value.0.scan.keys) then None
      else
        var (s, c) := before.value;
        assert GoodAction(w, a);
        var next := Act(w.env, w.ids, s, a);
        if next.None? then None else Some((next.value, ScopeAfter(w.env, w.ids, s, c, a)))
  }

  // Every reachable state satisfies the invariant.
  lemma {:induction false} EveryRunKeepsInv(w: World, sc: Scope, sys: Sys, marks: set<Mark>, acts: seq<Action>) returns (marks1: set<Mark>)
    requires Inv(w, sc, sys, marks) && |sys.chain| >= 1 && LabelsInRange(sys.scan.keys)
    requires forall a :: a in acts ==> GoodAction(w, a)
    ensures var end := RunAll(w, sys, sc, acts);
            end.Some? ==> Inv(w, end.value.1, end.value.0, marks1)
    decreases |acts|
  {
    hide Inv, Act, ScopeAfter, GoodAction, MarksAfter, LabelsInRange;
    marks1 := marks;
    if acts != [] {
      marks1 := EveryRunKeepsInv(w, sc, sys, marks, acts[..|acts| - 1]);
      var before := RunAll(w, sys, sc, acts[..|acts| - 1]);
      if before.Some? {
        ActKeepsInv(w, before.value.1, before.value.0, marks1, acts[|acts| - 1]);
        marks1 := MarksAfter(w, before.value.0, marks1, acts[|acts| - 1]);
      }
    }
  }

  // Runs compose.
  lemma {:induction false} RunAllThen(w: World, sys: Sys, sc: Scope, one: seq<Action>, two: seq<Action>)
    requires |sys.chain| >= 1 && LabelsInRange(sys.scan.keys)
    requires (forall a :: a in one ==> GoodAction(w, a)) && (forall a :: a in two ==> GoodAction(w, a))
    requires var mid := RunAll(w, sys, sc, one); mid.Some? && |mid.value.0.chain| >= 1 && LabelsInRange(mid.value.0.scan.keys)
    ensures var mid := RunAll(w, sys, sc, one).value;
            RunAll(w, sys, sc, one + two) == RunAll(w, mid.0, mid.1, two)
    decreases |two|
  {
    hide Act, ScopeAfter, GoodAction, LabelsInRange;
    if two == [] {
      assert one + two == one;
    } else {
      var n := |two| - 1;
      RunAllThen(w, sys, sc, one, two[..n]);
      assert (one + two)[..|one + two| - 1] == one + two[..n];
      assert (one + two)[|one + two| - 1] == two[n];
    }
  }

  lemma RunOneMore(w: World, sys: Sys, sc: Scope, acts: seq<Action>, a: Action, mid: Sys, c: Scope)
    requires |sys.chain| >= 1 && LabelsInRange(sys.scan.keys) && GoodAction(w, a) && forall x :: x in acts ==> GoodAction(w, x)
    requires RunAll(w, sys, sc, acts) == Some((mid, c)) && |mid.chain| >= 1 && LabelsInRange(mid.scan.keys) && (a.HeaderTick? ==> |a.peer.chain| >= 1)
    ensures RunAll(w, sys, sc, acts + [a]) == match Act(w.env, w.ids, mid, a) case None => None case Some(s) => Some((s, ScopeAfter(w.env, w.ids, mid, c, a)))
  {
    hide Act, ScopeAfter, GoodAction, LabelsInRange;
    assert (acts + [a])[..|acts|] == acts;
  }

  lemma RunOne(w: World, sys: Sys, sc: Scope, a: Action)
    requires |sys.chain| >= 1 && LabelsInRange(sys.scan.keys) && GoodAction(w, a) && (a.HeaderTick? ==> |a.peer.chain| >= 1)
    ensures RunAll(w, sys, sc, [a]) == match Act(w.env, w.ids, sys, a) case None => None case Some(s) => Some((s, ScopeAfter(w.env, w.ids, sys, sc, a)))
  {
    hide Act, ScopeAfter, GoodAction, LabelsInRange;
    assert RunAll(w, sys, sc, []) == Some((sys, sc));
    RunOneMore(w, sys, sc, [], a, sys, sc);
    assert [] + [a] == [a];
  }

  // ---- Runs without an added wallet ----

  // The passes stand at one place: there is one.
  ghost predicate OnePass(w: World, sys: Sys, marks: set<Mark>) {
    |sys.chain| >= 1 && |sys.scan.keys.wallets| >= 1 &&
    forall m :: m in marks ==> m.reach == Pos(w.env, sys.chain, MinHeight(sys.scan.keys.wallets))
  }

  lemma NoPass(w: World, sys: Sys)
    requires |sys.chain| >= 1 && |sys.scan.keys.wallets| >= 1
    ensures OnePass(w, sys, {})
  {
  }

  ghost predicate NoneAdded(n: nat, acts: seq<Action>) {
    forall a :: a in acts && a.Reboot? ==> |a.births| == n
  }

  lemma TickKeepsOnePass(w: World, sc: Scope, sys: Sys, marks: set<Mark>, peer: Peer)
    requires Inv(w, sc, sys, marks) && OnePass(w, sys, marks) && GoodAction(w, HeaderTick(peer))
    ensures |sys.chain| >= 1 && |peer.chain| >= 1
    ensures var after := TickHeaders(w.env, peer, sys);
            after.Some? ==> OnePass(w, after.value, MarksAfterTick(w, sys, marks, peer))
  {
    hide Wf, KeysGood, IndexesOk, CompleteUpTo, LedgerGood, Rollback, Pos, All, RollbackAllowed, MinHeight, RollbackProof.Cut, Lowered;
    InvBasics(w, sc, sys, marks);
    SyncOutcomes(w.env, w.genesis, peer, sys.chain);
    var (after, out) := SyncSpec(w.env, peer, sys.chain);
    var t, chain := MinHeight(sys.scan.keys.wallets), sys.chain;
    if out.UpToDate? {
      if t < |chain| {
        assert chain[..|chain|] == chain == after[..|chain|];
        SharedPosition(w.env, chain, after, |chain| - 1, t);
      }
    } else if out.Reorg? {
      var h := out.height;
      LoweredMin(sys.scan.keys.wallets, h);
      CutStaysOne(w, chain, marks, t, h);
    }
  }

  lemma CutStaysOne(w: World, chain: seq<Hash>, marks: set<Mark>, t: nat, h: nat)
    requires h < |chain| && forall m :: m in marks ==> m.reach == Pos(w.env, chain, t)
    ensures forall m :: m in RollbackProof.Cut(All(w.env, chain), Pos(w.env, chain, h), marks) ==> m.reach == Pos(w.env, chain[..h + 1], Min(t, h))
  {
    hide Pos, All, Funded;
    var pre := chain[..h + 1];
    assert pre[..h + 1] == chain[..h + 1];
    SharedPosition(w.env, chain, pre, h, Min(t, h));
    if t <= h { PosOrder(w.env, chain, t, h); } else { PosOrder(w.env, chain, h, t); }
  }

  lemma BlockKeepsOnePass(w: World, sc: Scope, sys: Sys, marks: set<Mark>)
    requires CanScan(sys) && Inv(w, sc, sys, marks) && OnePass(w, sys, marks)
    ensures OnePass(w, ScanOne(w.env, sys), AfterBlock(w, sys, marks))
  {
    hide Wf, KeysGood, IndexesOk, CompleteUpTo, LedgerGood, Placed, Pos, All, MinHeight, Marked, LabelsInRange, ProcessBlock;
    BlockKeepsInv(w, sc, sys, marks);
    InvBasics(w, sc, ScanOne(w.env, sys), AfterBlock(w, sys, marks));
    var t := MinHeight(sys.scan.keys.wallets);
    PosOrder(w.env, sys.chain, t, t + 1);
    MarkedSingle(w.env, sys.scan.(updated := {}), All(w.env, sys.chain), Pos(w.env, sys.chain, t), Pos(w.env, sys.chain, t + 1), marks);
  }

  lemma ActKeepsOnePass(w: World, sc: Scope, sys: Sys, marks: set<Mark>, a: Action)
    requires Inv(w, sc, sys, marks) && OnePass(w, sys, marks) && GoodAction(w, a)
    requires a.Reboot? ==> |a.births| == |sys.scan.keys.wallets|
    ensures |sys.chain| >= 1 && LabelsInRange(sys.scan.keys) && (a.HeaderTick? ==> |a.peer.chain| >= 1)
    ensures var after := Act(w.env, w.ids, sys, a);
            after.Some? ==> OnePass(w, after.value, MarksAfter(w, sys, marks, a)) && |after.value.scan.keys.wallets| == |sys.scan.keys.wallets|
  {
    hide Inv, OnePass, TickHeaders, Restart, ScanOne, MinHeight, MarksAfterTick, AfterBlock, LabelsInRange, GoodChain;
    InvBasics(w, sc, sys, marks);
    match a
    case HeaderTick(peer) =>
      TickKeepsOnePass(w, sc, sys, marks, peer);
      TickKeepsCount(w.env, peer, sys);
    case ScanBlock =>
      if CanScan(sys) {
        BlockKeepsOnePass(w, sc, sys, marks);
        ActKeepsInv(w, sc, sys, marks, a);
        InvBasics(w, sc, ScanOne(w.env, sys), AfterBlock(w, sys, marks));
      }
    case Reboot(births) =>
      RestartRestores(w, sc, births, sys, marks);
      SameButUpdated(w, sys, marks);
  }

  lemma TickKeepsCount(env: Env, peer: Peer, sys: Sys)
    requires |sys.chain| >= 1 && |peer.chain| >= 1
    ensures TickHeaders(env, peer, sys).Some? ==> |TickHeaders(env, peer, sys).value.scan.keys.wallets| == |sys.scan.keys.wallets|
  {
    hide Rollback, RollbackAllowed, SyncSpec, HeaderTable;
  }

  lemma SameButUpdated(w: World, sys: Sys, marks: set<Mark>)
    requires OnePass(w, sys, marks)
    ensures OnePass(w, Quiet(sys), marks)
  {
  }

  lemma {:induction false} RunKeepsOnePass(w: World, sc: Scope, sys: Sys, marks: set<Mark>, acts: seq<Action>) returns (marks1: set<Mark>)
    requires Inv(w, sc, sys, marks) && OnePass(w, sys, marks) && |sys.chain| >= 1 && LabelsInRange(sys.scan.keys)
    requires (forall a :: a in acts ==> GoodAction(w, a)) && NoneAdded(|sys.scan.keys.wallets|, acts)
    ensures var end := RunAll(w, sys, sc, acts);
            end.Some? ==> Inv(w, end.value.1, end.value.0, marks1) && OnePass(w, end.value.0, marks1)
                          && |end.value.0.scan.keys.wallets| == |sys.scan.keys.wallets|
    decreases |acts|
  {
    hide Inv, OnePass, Act, ScopeAfter, GoodAction, MarksAfter, LabelsInRange;
    marks1 := marks;
    if acts != [] {
      marks1 := RunKeepsOnePass(w, sc, sys, marks, acts[..|acts| - 1]);
      var before := RunAll(w, sys, sc, acts[..|acts| - 1]);
      if before.Some? {
        ActKeepsInv(w, before.value.1, before.value.0, marks1, acts[|acts| - 1]);
        ActKeepsOnePass(w, before.value.1, before.value.0, marks1, acts[|acts| - 1]);
        marks1 := MarksAfter(w, before.value.0, marks1, acts[|acts| - 1]);
      }
    }
  }

  // ---- When a rollback is refused ----

  // In every reachable state the rollback to height h is refused if and only if some output stands as
  // unspent for one pass and was seen spent above h by another. So it is never refused once every
  // wallet is at the tip, nor when there is only one pass.
  lemma RefusedIff(w: World, sc: Scope, sys: Sys, marks: set<Mark>, h: nat)
    requires Inv(w, sc, sys, marks)
    ensures |sys.chain| >= 1 && Within(All(w.env, sys.chain), marks)
    ensures RollbackAllowed(sys.scan.ledger, h) <==> forall o :: !RollbackProof.InBoth(All(w.env, sys.chain), marks, h, o)
    ensures CaughtUp(sys) || OnePass(w, sys, marks) ==> RollbackAllowed(sys.scan.ledger, h)
  {
    hide Wf, KeysGood, IndexesOk, CompleteUpTo, Overlay, RollbackAllowed, MinHeight, All, Pos, RollbackProof.InBoth;
    InvBasics(w, sc, sys, marks);
    var es, t := All(w.env, sys.chain), MinHeight(sys.scan.keys.wallets);
    DescribedWithin(w.coin, es, Pos(w.env, sys.chain, t), marks);
    RollbackProof.RollbackRefusedIff(w.coin, es, marks, h);
    if OnePass(w, sys, marks) {
      RollbackProof.OnePassAllows(w.coin, es, Pos(w.env, sys.chain, t), marks, h);
    }
    if CaughtUp(sys) {
      PosOrder(w.env, sys.chain, t, t);
      RollbackProof.OnePassAllows(w.coin, es, |es|, marks, h);
    }
  }

  // A refused rollback changes nothing, so a later start of the process, with whatever wallets, is
  // refused by the same peer again.
  lemma RefusedAgain(w: World, sc: Scope, sys: Sys, marks: set<Mark>, peer: Peer, births: seq<nat>)
    requires Inv(w, sc, sys, marks) && GoodAction(w, HeaderTick(peer)) && |sys.scan.keys.wallets| <= |births| <= |w.ids|
    ensures |sys.chain| >= 1 && |peer.chain| >= 1 && |Restart(w.env, w.ids[..|births|], births, sys).chain| >= 1
    ensures TickHeaders(w.env, peer, sys).None? ==> TickHeaders(w.env, peer, Restart(w.env, w.ids[..|births|], births, sys)).None?
  {
    hide Inv, Restart, GoodChain, TickHeaders, LabelsInRange, MinHeight, KeysGood;
    InvBasics(w, sc, sys, marks);
    assert |peer.chain| >= 1 by { GoodNonEmpty(w, peer.chain); }
    RestartAdds(w, sc, sys, births);
    RestartChain(w.env, w.ids[..|births|], births, sys);
    RefusalReads(w.env, peer, sys, Restart(w.env, w.ids[..|births|], births, sys));
  }

  // Whether a round stops depends on the headers and the tables alone.
  lemma RefusalReads(env: Env, peer: Peer, a: Sys, b: Sys)
    requires |a.chain| >= 1 && |peer.chain| >= 1 && a.chain == b.chain && a.scan.ledger.(index := map[]) == b.scan.ledger.(index := map[])
    ensures TickHeaders(env, peer, a).None? <==> TickHeaders(env, peer, b).None?
  {
    hide SyncSpec, ProcessReorg, HeaderTable;
  }

  // ---- The oracle ----

  ghost predicate CaughtUp(sys: Sys) {
    |sys.chain| >= 1 && |sys.scan.keys.wallets| >= 1 && MinHeight(sys.scan.keys.wallets) >= |sys.chain| - 1
  }

  ghost predicate RespectsGap(w: World, sc: Scope, chain: seq<Hash>) {
    |chain| >= 1 && |sc.start| == |sc.low| &&
    GapOk(w.env, w.ids, sc.start, Lows(w.env, chain, sc.low), All(w.env, chain), |All(w.env, chain)|)
  }

  // What an oracle watching every index records on this chain alone.
  ghost function Owned(w: World, low: seq<nat>, chain: seq<Hash>): set<OutPoint>
    requires |chain| >= 1
  {
    AllOwned(w.env, w.ids, Lows(w.env, chain, low), All(w.env, chain), 0, |All(w.env, chain)|)
  }

  ghost function OracleLedger(w: World, low: seq<nat>, chain: seq<Hash>): Ledger
    requires |chain| >= 1
  {
    Meaning(w.coin, All(w.env, chain), |All(w.env, chain)|, Owned(w, low, chain))
  }

  // At the tip the passes have met: the tables are those of one scan, however many there were. Blocks
  // scanned more than once leave no second trace.
  lemma CaughtUpIsOneScan(w: World, sc: Scope, sys: Sys, marks: set<Mark>)
    requires Inv(w, sc, sys, marks) && CaughtUp(sys)
    ensures var es := All(w.env, sys.chain);
            && sys.scan.ledger == Meaning(w.coin, es, |es|, Known(marks))
            && Known(marks) <= Owned(w, sc.low, sys.chain) && Known(marks) <= Funded(es, |es|) && Wf(w.coin, es)
            && marks == Single(|es|, Known(marks))
  {
    hide IsChain, KeysGood, IndexesOk, CompleteUpTo, Overlay, Meaning, MinHeight, All, Pos, Counted, Wf;
    var es, t := All(w.env, sys.chain), MinHeight(sys.scan.keys.wallets);
    PosOrder(w.env, sys.chain, t, t);
    DescribedWithin(w.coin, es, Pos(w.env, sys.chain, t), marks);
    PassesMeet(w.coin, es, |es|, marks);
  }

  lemma CaughtUpIsOracle(w: World, sc: Scope, sys: Sys, marks: set<Mark>)
    requires Inv(w, sc, sys, marks) && CaughtUp(sys) && RespectsGap(w, sc, sys.chain)
    ensures sys.scan.ledger == OracleLedger(w, sc.low, sys.chain) && Known(marks) == Owned(w, sc.low, sys.chain)
  {
    hide Wf, IsChain, KeysGood, IndexesOk, CompleteAt, LedgerGood, All, Pos, Meaning, AllOwned, GapOk, MinHeight, Known, Funded;
    CaughtUpIsOneScan(w, sc, sys, marks);
    var t := MinHeight(sys.scan.keys.wallets);
    PosOrder(w.env, sys.chain, t, t);
    assert CompleteAt(w, sc.start, Lows(w.env, sys.chain, sc.low), All(w.env, sys.chain), Pos(w.env, sys.chain, t), Known(marks), sys.scan.keys);
    CompleteMeansAll(w, sc.start, Lows(w.env, sys.chain, sc.low), All(w.env, sys.chain), Known(marks), sys.scan.keys);
  }

  lemma CompleteMeansAll(w: World, start: seq<Wallet>, lows: seq<nat>, es: seq<Event>, r: set<OutPoint>, ks: Keys)
    requires |start| == |lows| && CompleteAt(w, start, lows, es, |es|, r, ks)
    requires GapOk(w.env, w.ids, start, lows, es, |es|) && r <= AllOwned(w.env, w.ids, lows, es, 0, |es|)
    ensures r == AllOwned(w.env, w.ids, lows, es, 0, |es|)
  {
    hide GapOk, AllOwned, Ahead;
  }

  // The tables after any run that has caught up with a gap-respecting chain are the oracle's on that
  // chain: whatever peers were followed, whatever was rolled back, whichever wallets were added on the
  // way, and wherever blocks or restarts fell, no orphaned block has left a trace in them.
  lemma RunsAreScansOfTheirChain(w: World, sc: Scope, sys: Sys, marks: set<Mark>, acts: seq<Action>)
    requires Inv(w, sc, sys, marks) && |sys.chain| >= 1 && LabelsInRange(sys.scan.keys)
    requires forall a :: a in acts ==> GoodAction(w, a)
    ensures var end := RunAll(w, sys, sc, acts);
            end.Some? && CaughtUp(end.value.0) && RespectsGap(w, end.value.1, end.value.0.chain) ==>
              end.value.0.scan.ledger == OracleLedger(w, end.value.1.low, end.value.0.chain)
  {
    hide Inv, RunAll, CaughtUp, RespectsGap, OracleLedger, GoodAction;
    var marks1 := EveryRunKeepsInv(w, sc, sys, marks, acts);
    var end := RunAll(w, sys, sc, acts);
    if end.Some? && CaughtUp(end.value.0) && RespectsGap(w, end.value.1, end.value.0.chain) {
      CaughtUpIsOracle(w, end.value.1, end.value.0, marks1);
    }
  }

  // ---- Path independence ----

  ghost predicate Follows(low: seq<nat>, i: nat, height: nat) {
    i < |low| && height > low[i]
  }

  // Output k pays a wallet that one of the two follows there and the other does not.
  ghost predicate PaidBetween(w: World, chain: seq<Hash>, one: seq<nat>, two: seq<nat>, k: nat)
    requires |chain| >= 1
  {
    var es := All(w.env, chain);
    k < |es| && es[k].Fund? && Owner(w.env, w.ids, es[k].utxo.sh).Some? &&
    var i := Owner(w.env, w.ids, es[k].utxo.sh).value.walletIdx;
    Follows(one, i, es[k].height) != Follows(two, i, es[k].height)
  }

  lemma PaysIffFollowed(w: World, chain: seq<Hash>, low: seq<nat>, k: nat)
    requires |chain| >= 1 && k < |All(w.env, chain)|
    ensures var es := All(w.env, chain);
            Pays(w.env, w.ids, Lows(w.env, chain, low), es, k)
            <==> es[k].Fund? && Owner(w.env, w.ids, es[k].utxo.sh).Some? && Follows(low, Owner(w.env, w.ids, es[k].utxo.sh).value.walletIdx, es[k].height)
  {
    var es := All(w.env, chain);
    if es[k].Fund? && Owner(w.env, w.ids, es[k].utxo.sh).Some? && Owner(w.env, w.ids, es[k].utxo.sh).value.walletIdx < |low| {
      var h := low[Owner(w.env, w.ids, es[k].utxo.sh).value.walletIdx];
      ChainEventsFacts(w.env, chain, |chain| - 1, k);
      if h < |chain| {
        EventsCut(w.env, chain, h, |chain| - 1, k);
      }
    }
  }

  // Two oracles on one chain agree if and only if no output lies between the heights they follow from.
  lemma OraclesAgreeIff(w: World, chain: seq<Hash>, one: seq<nat>, two: seq<nat>)
    requires GoodChain(w, chain)
    ensures |chain| >= 1
    ensures OracleLedger(w, one, chain) == OracleLedger(w, two, chain) <==> forall k :: !PaidBetween(w, chain, one, two, k)
  {
    hide IsChain, IndexesOk, Meaning, Pays, All, Pos;
    GoodNonEmpty(w, chain);
    var es := All(w.env, chain);
    var a, b := Lows(w.env, chain, one), Lows(w.env, chain, two);
    forall k | 0 <= k < |es|
      ensures PaidBetween(w, chain, one, two, k) <==> Pays(w.env, w.ids, a, es, k) != Pays(w.env, w.ids, b, es, k)
    {
      PaysIffFollowed(w, chain, one, k);
      PaysIffFollowed(w, chain, two, k);
    }
    if OracleLedger(w, one, chain) == OracleLedger(w, two, chain) {
      MeaningInjective(w.coin, es, |es|, Owned(w, one, chain), Owned(w, two, chain));
      forall k | 0 <= k < |es| ensures Pays(w.env, w.ids, a, es, k) == Pays(w.env, w.ids, b, es, k) {
        OwnedIffPays(w, a, es, k);
        OwnedIffPays(w, b, es, k);
      }
    }
    if forall k :: !PaidBetween(w, chain, one, two, k) {
      assert Owned(w, one, chain) == Owned(w, two, chain);
    }
  }

  lemma OwnedIffPays(w: World, lows: seq<nat>, es: seq<Event>, k: nat)
    requires Wf(w.coin, es) && k < |es|
    ensures Pays(w.env, w.ids, lows, es, k) <==> es[k].Fund? && es[k].op in AllOwned(w.env, w.ids, lows, es, 0, |es|)
  {
  }

  // Two runs from one state that end at the tip of one gap-respecting chain agree if and only if no
  // output of that chain lies between the heights the two follow its wallet from.
  lemma PathIndependence(w: World, sc: Scope, sys: Sys, marks: set<Mark>, one: seq<Action>, two: seq<Action>)
    requires Inv(w, sc, sys, marks) && |sys.chain| >= 1 && LabelsInRange(sys.scan.keys)
    requires (forall a :: a in one ==> GoodAction(w, a)) && (forall a :: a in two ==> GoodAction(w, a))
    ensures var e1, e2 := RunAll(w, sys, sc, one), RunAll(w, sys, sc, two);
            e1.Some? && e2.Some? && e1.value.0.chain == e2.value.0.chain && CaughtUp(e1.value.0) && CaughtUp(e2.value.0)
            && RespectsGap(w, e1.value.1, e1.value.0.chain) && RespectsGap(w, e2.value.1, e2.value.0.chain) ==>
              (e1.value.0.scan.ledger == e2.value.0.scan.ledger
               <==> forall k :: !PaidBetween(w, e1.value.0.chain, e1.value.1.low, e2.value.1.low, k))
  {
    hide RunAll, RespectsGap, OracleLedger, GoodAction, PaidBetween, KeysGood, LedgerGood, CompleteUpTo, Placed, GoodChain;
    RunsAreScansOfTheirChain(w, sc, sys, marks, one);
    RunsAreScansOfTheirChain(w, sc, sys, marks, two);
    var m := EveryRunKeepsInv(w, sc, sys, marks, one);
    var e1, e2 := RunAll(w, sys, sc, one), RunAll(w, sys, sc, two);
    if e1.Some? && e2.Some? && CaughtUp(e1.value.0) {
      OraclesAgreeIff(w, e1.value.0.chain, e1.value.1.low, e2.value.1.low);
    }
  }

  // ---- Where the wallets are followed from ----

  // All peers agree on these blocks.
  ghost predicate PeersShare(acts: seq<Action>, prefix: seq<Hash>) {
    forall a :: a in acts && a.HeaderTick? ==> prefix <= a.peer.chain
  }

  lemma TickKeepsLow(w: World, sc: Scope, sys: Sys, peer: Peer, prefix: seq<Hash>)
    requires GoodAction(w, HeaderTick(peer)) && IsChain(w.env, w.genesis, sys.chain) && |sys.chain| >= 1 && |peer.chain| >= 1
    requires prefix <= peer.chain && (|sys.chain| == 1 || prefix <= sys.chain) && |prefix| >= 1
    requires forall i :: 0 <= i < |sc.low| ==> sc.low[i] < |prefix|
    ensures var after := TickHeaders(w.env, peer, sys);
            after.Some? ==> (|after.value.chain| == 1 || prefix <= after.value.chain) && ScopeAfter(w.env, w.ids, sys, sc, HeaderTick(peer)) == sc
  {
    hide Wf, IndexesOk, Rollback, RollbackAllowed, HeaderTable, LoweredRows, Lowered;
    var (after, out) := SyncSpec(w.env, peer, sys.chain);
    SyncOutcomes(w.env, w.genesis, peer, sys.chain);
    assert sys.chain[0] == peer.chain[0];
    if out.Reorg? {
      var f, n := out.height, |prefix|;
      assert sys.chain[n - 1] == prefix[n - 1] == peer.chain[n - 1];
      assert n - 1 <= f;
      assert prefix <= sys.chain[..f + 1];
      assert LoweredLow(sc.low, f) == sc.low;
    }
  }

  // If no peer parts from the others at or below the height a wallet is followed from, every wallet
  // stays followed from where it was.
  lemma {:induction false} LowStays(w: World, sc: Scope, sys: Sys, marks: set<Mark>, acts: seq<Action>, prefix: seq<Hash>)
    requires Inv(w, sc, sys, marks) && |sys.chain| >= 1 && LabelsInRange(sys.scan.keys)
    requires (forall a :: a in acts ==> GoodAction(w, a)) && NoneAdded(|sys.scan.keys.wallets|, acts) && PeersShare(acts, prefix)
    requires (|sys.chain| == 1 || prefix <= sys.chain) && |prefix| >= 1 && forall i :: 0 <= i < |sc.low| ==> sc.low[i] < |prefix|
    ensures var end := RunAll(w, sys, sc, acts);
            end.Some? ==> end.value.1 == sc && (|end.value.0.chain| == 1 || prefix <= end.value.0.chain)
                          && |end.value.0.scan.keys.wallets| == |sys.scan.keys.wallets|
    decreases |acts|
  {
    hide Inv, Act, ScopeAfter, GoodAction, LabelsInRange;
    if acts != [] {
      var n, a := |acts| - 1, acts[|acts| - 1];
      LowStays(w, sc, sys, marks, acts[..n], prefix);
      var m := EveryRunKeepsInv(w, sc, sys, marks, acts[..n]);
      var before := RunAll(w, sys, sc, acts[..n]);
      if before.Some? {
        ActKeepsLow(w, sc, before.value.0, m, a, prefix);
      }
    }
  }

  lemma ActKeepsLow(w: World, sc: Scope, sys: Sys, marks: set<Mark>, a: Action, prefix: seq<Hash>)
    requires Inv(w, sc, sys, marks) && GoodAction(w, a) && |prefix| >= 1
    requires a.Reboot? ==> |a.births| == |sys.scan.keys.wallets|
    requires a.HeaderTick? ==> prefix <= a.peer.chain
    requires (|sys.chain| == 1 || prefix <= sys.chain) && forall i :: 0 <= i < |sc.low| ==> sc.low[i] < |prefix|
    ensures |sys.chain| >= 1 && LabelsInRange(sys.scan.keys) && (a.HeaderTick? ==> |a.peer.chain| >= 1)
    ensures var after := Act(w.env, w.ids, sys, a);
            after.Some? ==> (|after.value.chain| == 1 || prefix <= after.value.chain) && ScopeAfter(w.env, w.ids, sys, sc, a) == sc
                            && |after.value.scan.keys.wallets| == |sys.scan.keys.wallets|
  {
    hide Inv, TickHeaders, Restart, MinHeight, LabelsInRange, GoodChain, KeysGood;
    InvBasics(w, sc, sys, marks);
    match a
    case HeaderTick(peer) =>
      GoodNonEmpty(w, peer.chain);
      TickKeepsLow(w, sc, sys, peer, prefix);
      TickKeepsCount(w.env, peer, sys);
    case ScanBlock =>
      if CanScan(sys) {
        BlockKeepsInv(w, sc, sys, marks);
        InvBasics(w, sc, ScanOne(w.env, sys), AfterBlock(w, sys, marks));
      }
    case Reboot(births) =>
      RestartRestores(w, sc, births, sys, marks);
      SameScope(sc, sys.scan.keys.wallets);
  }

  lemma SameScope(sc: Scope, wallets: seq<Wallet>)
    requires |sc.start| == |sc.low| == |wallets| >= 1 && FollowedAt(sc.low, MinHeight(wallets))
    ensures MoreScope(sc, wallets) == sc
  {
    hide MinHeight;
    assert MoreLow(sc.low, |wallets|, MinHeight(wallets)) == sc.low;
  }

  // ---- syncWallets ----

  lemma ProcessBlockRaises(w: World, sc: Scope, sys: Sys, marks: set<Mark>)
    requires CanScan(sys) && Inv(w, sc, sys, marks)
    ensures var before, after := sys.scan.keys, ScanOne(w.env, sys).scan.keys;
            |after.wallets| == |before.wallets| && IndexesUp(before, after) && forall i :: 0 <= i < |after.wallets| ==>
              after.wallets[i].height == Max(before.wallets[i].height, MinHeight(before.wallets) + 1)
  {
    hide Wf, IsChain, CompleteUpTo, LedgerGood, Pos, All, KeysOk, RowsAgree, StartBelow, Run, MinHeight, LabelsInRange, ProcessBlock, BlockResult;
    var chain, t := sys.chain, MinHeight(sys.scan.keys.wallets);
    var s := sys.scan.(updated := {});
    BlockRun(w, chain, s, t);
    var es, p, p1 := All(w.env, chain), Pos(w.env, chain, t), Pos(w.env, chain, t + 1);
    var m := Run(w.env, s, es, p, p1);
    assert BlockResult(m, t + 1, ScanOne(w.env, sys).scan) by { BlockResultHolds(w, sys, m); }
    BlockKeys(w, sc, es, p, p1, s, m, ScanOne(w.env, sys).scan);
    IndexesUpTwice(s.keys, m.keys, ScanOne(w.env, sys).scan.keys);
  }

  lemma IndexesUpTwice(a: Keys, b: Keys, c: Keys)
    requires IndexesUp(a, b) && IndexesUp(b, c)
    ensures IndexesUp(a, c)
  {
  }

  // A block makes known only outputs created in it.
  lemma AfterBlockAbove(w: World, sc: Scope, sys: Sys, marks: set<Mark>, from: nat)
    requires CanScan(sys) && Inv(w, sc, sys, marks) && OnePass(w, sys, marks) && from <= MinHeight(sys.scan.keys.wallets)
    ensures Known(AfterBlock(w, sys, marks)) * Funded(All(w.env, sys.chain), Pos(w.env, sys.chain, from))
            == Known(marks) * Funded(All(w.env, sys.chain), Pos(w.env, sys.chain, from))
  {
    hide Wf, IsChain, KeysGood, IndexesOk, CompleteUpTo, Funded, AllOwned, Overlay, Seen, All, Pos, MinHeight, LabelsInRange, Marked, Known, Counted, Run, Recognised;
    var es, t := All(w.env, sys.chain), MinHeight(sys.scan.keys.wallets);
    var p, p1, s := Pos(w.env, sys.chain, t), Pos(w.env, sys.chain, t + 1), sys.scan.(updated := {});
    PosOrder(w.env, sys.chain, t, t + 1);
    PosOrder(w.env, sys.chain, from, t);
    KnownMarked(w.env, s, es, p, p1, marks);
    KnownIsFunded(w.coin, es, p, marks);
    SeenAbove(w.env, w.coin, s, es, p, p1, Known(marks));
    FundedGrows(es, Pos(w.env, sys.chain, from), p);
  }

  lemma KnownIsFunded(coin: OutPoint -> Utxo, es: seq<Event>, p: nat, marks: set<Mark>)
    requires Described(coin, es, p, marks) && forall m :: m in marks ==> m.reach == p
    ensures Known(marks) <= Funded(es, p) && Wf(coin, es)
  {
    hide Funded;
  }

  // syncWallets is one committed block after another, from the lowest wallet height up, each height
  // once; it keeps the invariant, raises every wallet to the tip and lowers no index. A single pass
  // stays one and makes known only outputs created in those blocks.
  lemma {:induction false} ScanBlocksKeepInv(w: World, sc: Scope, sys: Sys, marks: set<Mark>, upto: nat) returns (marks1: set<Mark>)
    requires Inv(w, sc, sys, marks) && |sys.chain| >= 1 && LabelsInRange(sys.scan.keys) && |sys.scan.keys.wallets| >= 1
    requires MinHeight(sys.scan.keys.wallets) <= upto < |sys.chain|
    ensures var from := MinHeight(sys.scan.keys.wallets);
            var after := sys.(scan := ScanBlocks(w.env, sys.scan, sys.chain, from, upto));
            var ws, below := after.scan.keys.wallets, Funded(All(w.env, sys.chain), Pos(w.env, sys.chain, from));
            && Inv(w, sc, after, marks1) && IndexesUp(sys.scan.keys, after.scan.keys) && |ws| == |sys.scan.keys.wallets| && MinHeight(ws) == upto
            && (forall i :: 0 <= i < |ws| ==> ws[i].height == Max(sys.scan.keys.wallets[i].height, upto))
            && (OnePass(w, sys, marks) ==> OnePass(w, after, marks1) && Known(marks1) * below == Known(marks) * below)
    decreases upto
  {
    hide Inv, OnePass, ProcessBlock, LabelsInRange, MinHeight, All, Pos, Funded, AfterBlock, Known;
    marks1 := marks;
    var from := MinHeight(sys.scan.keys.wallets);
    if from < upto {
      marks1 := ScanBlocksKeepInv(w, sc, sys, marks, upto - 1);
      var mid := sys.(scan := ScanBlocks(w.env, sys.scan, sys.chain, from, upto - 1));
      assert CanScan(mid);
      ProcessBlockRaises(w, sc, mid, marks1);
      BlockKeepsInv(w, sc, mid, marks1);
      if OnePass(w, mid, marks1) {
        BlockKeepsOnePass(w, sc, mid, marks1);
        AfterBlockAbove(w, sc, mid, marks1, from);
      }
      marks1 := AfterBlock(w, mid, marks1);
    }
  }

  lemma SyncWalletsCatchesUp(w: World, sc: Scope, sys: Sys, marks: set<Mark>) returns (marks1: set<Mark>)
    requires |sys.chain| >= 1 && LabelsInRange(sys.scan.keys) && |sys.scan.keys.wallets| >= 1
    requires Inv(w, sc, sys, marks)
    ensures var after := SyncWallets(w.env, sys);
            && Inv(w, sc, after, marks1) && CaughtUp(after) && after.chain == sys.chain
            && |after.scan.keys.wallets| == |sys.scan.keys.wallets|
            && forall i :: 0 <= i < |sys.scan.keys.wallets| ==>
                 after.scan.keys.wallets[i].height == Max(sys.scan.keys.wallets[i].height, |sys.chain| - 1)
  {
    hide Inv, OnePass, ScanBlocks, MinHeight, LabelsInRange, Known, All, Pos, Funded;
    marks1 := marks;
    if MinHeight(sys.scan.keys.wallets) < |sys.chain| - 1 {
      marks1 := ScanBlocksKeepInv(w, sc, sys, marks, |sys.chain| - 1);
    }
  }

  // ---- A round of run is a run ----

  // One round of run: headers, reorg handling, wallets.
  function Tick(env: Env, peer: Peer, sys: Sys): Option<Sys>
    requires |sys.chain| >= 1 && |peer.chain| >= 1 && LabelsInRange(sys.scan.keys)
  {
    match TickHeaders(env, peer, sys)
    case None => None
    case Some(s) => if |s.chain| >= 1 && LabelsInRange(s.scan.keys) then Some(SyncWallets(env, s)) else None
  }

  function Blocks(n: nat): (acts: seq<Action>)
    ensures |acts| == n && forall a :: a in acts ==> a == ScanBlock
  {
    seq(n, _ => ScanBlock)
  }

  function Round(peer: Peer, n: nat): (acts: seq<Action>)
    ensures forall a :: a in acts ==> a == HeaderTick(peer) || a == ScanBlock
  {
    [HeaderTick(peer)] + Blocks(n)
  }

  lemma NextBlock(w: World, sys: Sys, from: nat, upto: nat)
    requires from < upto < |sys.chain| && LabelsInRange(sys.scan.keys)
    requires var mid := ScanBlocks(w.env, sys.scan, sys.chain, from, upto - 1);
             CanScan(sys.(scan := mid)) && MinHeight(mid.keys.wallets) == upto - 1
    ensures ScanBlocks(w.env, sys.scan, sys.chain, from, upto)
            == ScanOne(w.env, sys.(scan := ScanBlocks(w.env, sys.scan, sys.chain, from, upto - 1))).scan
  {
    hide ProcessBlock, LabelsInRange, MinHeight;
  }

  lemma {:induction false} ScanBlocksIsARun(w: World, sc: Scope, sys: Sys, marks: set<Mark>, n: nat)
    requires Inv(w, sc, sys, marks) && |sys.chain| >= 1 && LabelsInRange(sys.scan.keys) && |sys.scan.keys.wallets| >= 1
    requires MinHeight(sys.scan.keys.wallets) + n < |sys.chain|
    ensures var from := MinHeight(sys.scan.keys.wallets);
            RunAll(w, sys, sc, Blocks(n)) == Some((sys.(scan := ScanBlocks(w.env, sys.scan, sys.chain, from, from + n)), sc))
  {
    hide Inv, OnePass, ScanBlocks, ScanOne, LabelsInRange, MinHeight, Known, All, Pos, Funded, GoodChain, RunAll;
    var from := MinHeight(sys.scan.keys.wallets);
    if n > 0 {
      ScanBlocksIsARun(w, sc, sys, marks, n - 1);
      var m := ScanBlocksKeepInv(w, sc, sys, marks, from + n - 1);
      var mid := sys.(scan := ScanBlocks(w.env, sys.scan, sys.chain, from, from + n - 1));
      assert CanScan(mid);
      NextBlock(w, sys, from, from + n);
      assert Blocks(n) == Blocks(n - 1) + [ScanBlock];
      RunOneMore(w, sys, sc, Blocks(n - 1), ScanBlock, mid, sc);
    } else {
      assert Blocks(0) == [];
      RunNothing(w, sys, sc);
      assert ScanBlocks(w.env, sys.scan, sys.chain, from, from) == sys.scan by { NoBlocks(w.env, sys.scan, sys.chain, from); }
    }
  }

  lemma NoBlocks(env: Env, s: Scan, chain: seq<Hash>, t: nat)
    requires t < |chain| && LabelsInRange(s.keys)
    ensures ScanBlocks(env, s, chain, t, t) == s
  {
  }

  // syncWallets as a run of single blocks.
  lemma SyncWalletsIsARun(w: World, sc: Scope, sys: Sys, marks: set<Mark>) returns (n: nat)
    requires Inv(w, sc, sys, marks) && |sys.chain| >= 1 && LabelsInRange(sys.scan.keys) && |sys.scan.keys.wallets| >= 1
    ensures RunAll(w, sys, sc, Blocks(n)) == Some((SyncWallets(w.env, sys), sc))
  {
    hide Inv, ScanBlocks, MinHeight, LabelsInRange;
    var from := MinHeight(sys.scan.keys.wallets);
    if from < |sys.chain| - 1 {
      n := |sys.chain| - 1 - from;
      ScanBlocksIsARun(w, sc, sys, marks, n);
    } else {
      n := 0;
    }
  }

  lemma BlocksAreGood(w: World, n: nat)
    ensures forall a :: a in Blocks(n) ==> GoodAction(w, a)
  {
  }

  lemma RoundIsGood(w: World, peer: Peer, n: nat)
    requires GoodAction(w, HeaderTick(peer))
    ensures forall a :: a in Round(peer, n) ==> GoodAction(w, a)
  {
    hide GoodChain;
  }

  // A round that does not stop is a header round followed by single blocks, up to the tip.
  lemma TickIsARun(w: World, sc: Scope, sys: Sys, marks: set<Mark>, peer: Peer, end: Sys) returns (n: nat, sc1: Scope, marks1: set<Mark>)
    requires |sys.chain| >= 1 && |peer.chain| >= 1 && LabelsInRange(sys.scan.keys)
    requires Inv(w, sc, sys, marks) && GoodAction(w, HeaderTick(peer)) && Tick(w.env, peer, sys) == Some(end)
    ensures forall a :: a in Round(peer, n) ==> GoodAction(w, a)
    ensures RunAll(w, sys, sc, Round(peer, n)) == Some((end, sc1))
    ensures Inv(w, sc1, end, marks1) && CaughtUp(end) && |end.chain| >= 1 && LabelsInRange(end.scan.keys)
    ensures sc1 == ScopeAfter(w.env, w.ids, sys, sc, HeaderTick(peer))
    ensures TickHeaders(w.env, peer, sys).Some? && end.chain == TickHeaders(w.env, peer, sys).value.chain
  {
    hide Inv, GoodAction, TickHeaders, SyncWallets, RunAll, LabelsInRange, CaughtUp, ScopeAfter, MarksAfterTick;
    var mid := TickHeaders(w.env, peer, sys).value;
    TickKeepsInv(w, sc, sys, marks, peer);
    sc1 := ScopeAfter(w.env, w.ids, sys, sc, HeaderTick(peer));
    var m := MarksAfterTick(w, sys, marks, peer);
    InvBasics(w, sc1, mid, m);
    RunOne(w, sys, sc, HeaderTick(peer));
    n := SyncWalletsIsARun(w, sc1, mid, m);
    BlocksAreGood(w, n);
    RoundIsGood(w, peer, n);
    RunAllThen(w, sys, sc, [HeaderTick(peer)], Blocks(n));
    marks1 := SyncWalletsCatchesUp(w, sc1, mid, m);
    InvBasics(w, sc1, SyncWallets(w.env, mid), marks1);
  }

  // The rounds of run, each against the peer as it then is.
  function Rounds(env: Env, peers: seq<Peer>, sys: Sys): (r: Option<Sys>)
    requires |sys.chain| >= 1 && LabelsInRange(sys.scan.keys) && forall p :: p in peers ==> |p.chain| >= 1
    ensures r.Some? ==> |r.value.chain| >= 1 && LabelsInRange(r.value.scan.keys)
    decreases |peers|
  {
    if peers == [] then Some(sys)
    else
      match Rounds(env, peers[..|peers| - 1], sys)
      case None => None
      case Some(s) =>
        match Tick(env, peers[|peers| - 1], s)
        case None => None
        case Some(e) => if |e.chain| >= 1 && LabelsInRange(e.scan.keys) then Some(e) else None
  }

  // Rounds that do not stop are a run without an added wallet, and end at the tip.
  lemma {:induction false} RoundsAreARun(w: World, sc: Scope, sys: Sys, marks: set<Mark>, peers: seq<Peer>) returns (acts: seq<Action>, sc1: Scope, marks1: set<Mark>)
    requires Inv(w, sc, sys, marks) && |sys.chain| >= 1 && LabelsInRange(sys.scan.keys)
    requires forall p :: p in peers ==> |p.chain| >= 1 && GoodAction(w, HeaderTick(p))
    requires Rounds(w.env, peers, sys).Some?
    ensures forall a :: a in acts ==> GoodAction(w, a) && !a.Reboot? && (a.HeaderTick? ==> a.peer in peers)
    ensures RunAll(w, sys, sc, acts) == Some((Rounds(w.env, peers, sys).value, sc1))
    ensures Inv(w, sc1, Rounds(w.env, peers, sys).value, marks1)
    ensures peers != [] ==> CaughtUp(Rounds(w.env, peers, sys).value)
    decreases |peers|
  {
    hide Inv, GoodAction, RunAll, LabelsInRange, CaughtUp, ScopeAfter, Tick;
    if peers == [] {
      acts, sc1, marks1 := [], sc, marks;
      RunNothing(w, sys, sc);
    } else {
      var n, p := |peers| - 1, peers[|peers| - 1];
      var before, sc0, m0 := RoundsAreARun(w, sc, sys, marks, peers[..n]);
      var mid := Rounds(w.env, peers[..n], sys).value;
      var k, sc2, m2 := TickIsARun(w, sc0, mid, m0, p, Rounds(w.env, peers, sys).value);
      RunAllThen(w, sys, sc, before, Round(p, k));
      acts, sc1, marks1 := before + Round(p, k), sc2, m2;
    }
  }

  lemma RunNothing(w: World, sys: Sys, sc: Scope)
    requires |sys.chain| >= 1 && LabelsInRange(sys.scan.keys)
    ensures RunAll(w, sys, sc, []) == Some((sys, sc))
  {
  }

  // ---- Convergence ----

  // The fork is one the code handles: the peer has the stored tip, or they part at height at least 1
  // and at most 6 below it, and the rollback there is accepted.
  ghost predicate ForkInReach(sys: Sys, peer: Peer) {
    |sys.chain| >= 1 &&
    (sys.chain[|sys.chain| - 1] in peer.chain
     || (|peer.chain| >= 2 && exists f :: 1 <= f && |sys.chain| - 1 <= f + 6 && ForkHeight(sys.chain, peer.chain, f) && RollbackAllowed(sys.scan.ledger, f)))
  }

  // A header round ends on the peer's chain or a prefix of it if and only if the fork is in reach.
  lemma HeadersConverge(w: World, peer: Peer, sys: Sys)
    requires GoodAction(w, HeaderTick(peer)) && IsChain(w.env, w.genesis, sys.chain)
    ensures |sys.chain| >= 1 && |peer.chain| >= 1
    ensures ForkInReach(sys, peer) <==> TickHeaders(w.env, peer, sys).Some? && TickHeaders(w.env, peer, sys).value.chain <= peer.chain
    ensures ForkInReach(sys, peer) ==> |TickHeaders(w.env, peer, sys).value.chain| >= 1
  {
    hide Wf, IndexesOk, ProcessReorg, RollbackAllowed, CheckReorgSpec;
    var tip := |sys.chain| - 1;
    if sys.chain[tip] !in peer.chain {
      assert tip != 0 by { assert peer.chain[0] in peer.chain; }
      if |peer.chain| >= 2 {
        var f := ForkExists(w.env, w.genesis, sys.chain, peer.chain, tip);
        ForkFindingExact(w.env, w.genesis, peer, sys.chain, f);
        OneFork(sys.chain, peer.chain, f);
        if 1 <= f < |sys.chain| {
          ProcessReorgChain(Quiet(sys), HeaderTable(sys.chain), f);
          assert sys.chain[..f + 1] <= peer.chain;
        }
      }
    }
  }

  // Two chains part at one height.
  lemma OneFork(a: seq<Hash>, b: seq<Hash>, f: nat)
    requires ForkHeight(a, b, f)
    ensures forall g: nat :: ForkHeight(a, b, g) ==> g == f
  {
    forall g: nat | ForkHeight(a, b, g) ensures g == f {
      assert a[f] == a[..f + 1][f] == b[..f + 1][f] == b[f];
      assert a[g] == a[..g + 1][g] == b[..g + 1][g] == b[g];
    }
  }

  lemma ProcessReorgChain(sys: Sys, header: map<Hash, nat>, h: nat)
    requires h < |sys.chain|
    ensures ProcessReorg(sys, header, h).chain == sys.chain[..h + 1]
  {
  }

  lemma PrefixConverges(w: World, peer: Peer, sys: Sys)
    requires GoodAction(w, HeaderTick(peer)) && 1 <= |sys.chain| <= |peer.chain| && sys.chain == peer.chain[..|sys.chain|]
    ensures TickHeaders(w.env, peer, sys) == Some(Sys(peer.chain, Quiet(sys).scan))
  {
    hide Wf, IndexesOk, IsChain;
    assert sys.chain[|sys.chain| - 1] == peer.chain[|sys.chain| - 1];
  }

  // Two rounds against a peer that stands still make the stored chain the peer's, bring every wallet
  // to its tip and, if the chain respects the gap, leave exactly the oracle's tables.
  lemma TwoTicksConverge(w: World, sc: Scope, sys: Sys, marks: set<Mark>, peer: Peer) returns (end: Sys, sc1: Scope, marks1: set<Mark>)
    requires Inv(w, sc, sys, marks) && |sys.chain| >= 1 && LabelsInRange(sys.scan.keys)
    requires |peer.chain| >= 1 && GoodAction(w, HeaderTick(peer)) && ForkInReach(sys, peer)
    ensures Rounds(w.env, [peer, peer], sys) == Some(end)
    ensures Inv(w, sc1, end, marks1) && end.chain == peer.chain && CaughtUp(end)
    ensures RespectsGap(w, sc1, peer.chain) ==> end.scan.ledger == OracleLedger(w, sc1.low, peer.chain)
  {
    hide Inv, GoodAction, ForkInReach, TickHeaders, Tick, SyncWallets, OracleLedger, RespectsGap, RunAll, LabelsInRange, ScopeAfter, CaughtUp;
    InvBasics(w, sc, sys, marks);
    HeadersConverge(w, peer, sys);
    TickOfHeaders(w, sc, sys, marks, peer);
    var mid := Tick(w.env, peer, sys).value;
    var n, c, m := TickIsARun(w, sc, sys, marks, peer, mid);
    PrefixConverges(w, peer, mid) by { if mid.chain == peer.chain { assert peer.chain[..|peer.chain|] == peer.chain; } }
    TickOfHeaders(w, c, mid, m, peer);
    end := Tick(w.env, peer, mid).value;
    var n2;
    n2, sc1, marks1 := TickIsARun(w, c, mid, m, peer, end);
    assert [peer, peer][..1] == [peer] && [peer][..0] == [];
    assert Rounds(w.env, [], sys) == Some(sys);
    assert Rounds(w.env, [peer], sys) == Some(mid);
    if RespectsGap(w, sc1, peer.chain) {
      CaughtUpIsOracle(w, sc1, end, marks1);
    }
  }

  lemma TickOfHeaders(w: World, sc: Scope, sys: Sys, marks: set<Mark>, peer: Peer)
    requires Inv(w, sc, sys, marks) && |sys.chain| >= 1 && LabelsInRange(sys.scan.keys)
    requires |peer.chain| >= 1 && GoodAction(w, HeaderTick(peer)) && TickHeaders(w.env, peer, sys).Some?
    ensures Tick(w.env, peer, sys).Some?
  {
    hide Inv, GoodAction, TickHeaders, SyncWallets, LabelsInRange, ScopeAfter, MarksAfterTick;
    TickKeepsInv(w, sc, sys, marks, peer);
    InvBasics(w, ScopeAfter(w.env, w.ids, sys, sc, HeaderTick(peer)), TickHeaders(w.env, peer, sys).value, MarksAfterTick(w, sys, marks, peer));
  }
}
