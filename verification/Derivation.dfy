// Gap-limit key derivation: the window of derived scripts that setupWallet, walletUpdateIndexes and
// refillWallet keep (BIP 44, section "Address gap limit"). Counters are uint32.
module Derivation {
  import opened Base

  const GAP: nat := 2000
  const MAX_INDEX: nat := 0x8000_0000

  // The in-memory wallet; its hash stands for the key material it is computed from.
  datatype Wallet = Wallet(
    hash: Hash, height: nat,
    nextReceive: nat, receiveDerived: nat,
    nextChange: nat, changeDerived: nat)
  {
    function Next(a: Account): nat { if a.Receive? then nextReceive else nextChange }
    function Derived(a: Account): nat { if a.Receive? then receiveDerived else changeDerived }
    function WithNext(a: Account, n: nat): Wallet {
      if a.Receive? then this.(nextReceive := n) else this.(nextChange := n)
    }
    function WithDerived(a: Account, n: nat): Wallet {
      if a.Receive? then this.(receiveDerived := n) else this.(changeDerived := n)
    }
  }

  // The wallets and the scriptPubkeys map.
  datatype Keys = Keys(wallets: seq<Wallet>, watch: map<Hash, Info>)

  predicate LabelsInRange(ks: Keys) {
    forall sh :: sh in ks.watch ==> ks.watch[sh].walletIdx < |ks.wallets|
  }

  // ---- The code ----

  // addToSKIdx: the scripts at indices from, from+1, ... of an account, each with its own label.
  function AddScripts(env: Env, hash: Hash, w: nat, a: Account, from: nat, count: nat, watch: map<Hash, Info>): map<Hash, Info>
  {
    if count == 0 then watch
    else AddScripts(env, hash, w, a, from, count - 1, watch)[env.derive(hash, a, from + count - 1) := Info(w, a, from + count - 1)]
  }

  // offAndCount
  function Missing(next: nat, derived: nat): nat {
    var target := (next + GAP) % TWO_32;
    if derived >= target then 0 else target - derived
  }

  function RefillAccount(env: Env, ks: Keys, w: nat, a: Account): Keys
    requires w < |ks.wallets|
  {
    var wl := ks.wallets[w];
    var count := Missing(wl.Next(a), wl.Derived(a));
    if count == 0 then ks
    else Keys(ks.wallets[w := wl.WithDerived(a, wl.Derived(a) + count)],
              AddScripts(env, wl.hash, w, a, wl.Derived(a), count, ks.watch))
  }

  // refillWallet
  function Refill(env: Env, ks: Keys, w: nat): Keys
    requires w < |ks.wallets|
  {
    RefillAccount(env, RefillAccount(env, ks, w, Receive), w, Change)
  }

  // walletUpdateIndexes, in memory
  function UpdateIndexes(ks: Keys, info: Info): Keys
    requires info.walletIdx < |ks.wallets|
  {
    var wl := ks.wallets[info.walletIdx];
    if info.idx < wl.Next(info.account) then ks
    else ks.(wallets := ks.wallets[info.walletIdx := wl.WithNext(info.account, (info.idx + 1) % TWO_32)])
  }

  // What processOutput does to the keys when it recognises a script with this label.
  function Recognise(env: Env, ks: Keys, info: Info): Keys
    requires info.walletIdx < |ks.wallets|
  {
    Refill(env, UpdateIndexes(ks, info), info.walletIdx)
  }

  // setupWallet for the next wallet, with the indexes of its database row.
  function AddWallet(env: Env, ks: Keys, hash: Hash, height: nat, nextReceive: nat, nextChange: nat): Keys {
    Refill(env, ks.(wallets := ks.wallets + [Wallet(hash, height, nextReceive, 0, nextChange, 0)]), |ks.wallets|)
  }

  // ---- The window ----

  function Ids(wallets: seq<Wallet>): (ids: seq<Hash>)
    ensures |ids| == |wallets|
    ensures forall i :: 0 <= i < |wallets| ==> ids[i] == wallets[i].hash
  {
    seq(|wallets|, i requires 0 <= i < |wallets| => wallets[i].hash)
  }

  function Script(env: Env, ids: seq<Hash>, info: Info): Hash
    requires info.walletIdx < |ids|
  {
    env.derive(ids[info.walletIdx], info.account, info.idx)
  }

  ghost predicate DistinctScripts(env: Env, ids: seq<Hash>) {
    forall x: Info, y: Info ::
      (x.walletIdx < |ids| && y.walletIdx < |ids| && x.idx < TWO_32 && y.idx < TWO_32 &&
       Script(env, ids, x) == Script(env, ids, y)) ==> x == y
  }

  ghost predicate InWindow(ks: Keys, x: Info) {
    x.walletIdx < |ks.wallets| && x.idx < ks.wallets[x.walletIdx].Derived(x.account)
  }

  ghost predicate Covers(env: Env, ids: seq<Hash>, ks: Keys)
    requires |ids| == |ks.wallets|
  {
    forall x: Info :: InWindow(ks, x) ==> Script(env, ids, x) in ks.watch && ks.watch[Script(env, ids, x)] == x
  }

  ghost predicate Sound(env: Env, ids: seq<Hash>, ks: Keys)
    requires |ids| == |ks.wallets|
  {
    forall sh :: sh in ks.watch ==> InWindow(ks, ks.watch[sh]) && Script(env, ids, ks.watch[sh]) == sh
  }

  // The map holds exactly the derived scripts, each under its own label: no hole and no overlap.
  ghost predicate Labelled(env: Env, ks: Keys) {
    Covers(env, Ids(ks.wallets), ks) && Sound(env, Ids(ks.wallets), ks)
  }

  ghost predicate FullAt(ks: Keys, w: nat, a: Account) {
    w < |ks.wallets| ==>
      ks.wallets[w].Derived(a) == ks.wallets[w].Next(a) + GAP && ks.wallets[w].Next(a) <= MAX_INDEX
  }

  // Every account is derived exactly one gap past its next index.
  ghost predicate Window(env: Env, ks: Keys) {
    DistinctScripts(env, Ids(ks.wallets)) && Labelled(env, ks) && forall w: nat, a :: FullAt(ks, w, a)
  }

  // The scripts one refill adds.
  ghost predicate IsNew(env: Env, hash: Hash, a: Account, from: nat, count: nat, sh: Hash) {
    exists x: nat :: from <= x < from + count && env.derive(hash, a, x) == sh
  }

  lemma {:induction false} AddScriptsOld(env: Env, hash: Hash, w: nat, a: Account, from: nat, count: nat, watch: map<Hash, Info>, sh: Hash)
    ensures var m := AddScripts(env, hash, w, a, from, count, watch);
            !IsNew(env, hash, a, from, count, sh) ==>
              (sh in m <==> sh in watch) && (sh in watch ==> m[sh] == watch[sh])
  {
    if count > 0 && !IsNew(env, hash, a, from, count, sh) {
      AddScriptsOld(env, hash, w, a, from, count - 1, watch, sh);
      assert !IsNew(env, hash, a, from, count - 1, sh);
      assert env.derive(hash, a, from + count - 1) != sh;
    }
  }

  lemma {:induction false} AddScriptsNew(env: Env, hash: Hash, w: nat, a: Account, from: nat, count: nat, watch: map<Hash, Info>, x: nat)
    requires from <= x < from + count
    requires forall y: nat :: y < from + count && env.derive(hash, a, x) == env.derive(hash, a, y) ==> x == y
    ensures var m := AddScripts(env, hash, w, a, from, count, watch);
            env.derive(hash, a, x) in m && m[env.derive(hash, a, x)] == Info(w, a, x)
  {
    if x < from + count - 1 {
      AddScriptsNew(env, hash, w, a, from, count - 1, watch, x);
    }
  }

  lemma Apart(env: Env, ids: seq<Hash>, w: nat, a: Account, x: nat, y: nat)
    requires DistinctScripts(env, ids) && w < |ids| && x < TWO_32 && y < TWO_32
    requires env.derive(ids[w], a, x) == env.derive(ids[w], a, y)
    ensures x == y
  {
    assert Script(env, ids, Info(w, a, x)) == Script(env, ids, Info(w, a, y));
  }

  ghost predicate Extends(ks: Keys, r: Keys, w: nat, a: Account, from: nat, count: nat) {
    && |r.wallets| == |ks.wallets| && w < |ks.wallets| && from + count < TWO_32
    && (forall x: Info :: InWindow(ks, x) ==> x.idx < TWO_32)
    && (forall x: Info :: InWindow(r, x) <==> InWindow(ks, x) || (x.walletIdx == w && x.account == a && from <= x.idx < from + count))
    && (forall x: Info :: InWindow(ks, x) && x.walletIdx == w && x.account == a ==> x.idx < from)
  }

  lemma CoversExtends(env: Env, ids: seq<Hash>, ks: Keys, r: Keys, w: nat, a: Account, from: nat, count: nat, x: Info)
    requires |ids| == |ks.wallets| && DistinctScripts(env, ids) && Covers(env, ids, ks)
    requires Extends(ks, r, w, a, from, count) && r.watch == AddScripts(env, ids[w], w, a, from, count, ks.watch)
    requires InWindow(r, x)
    ensures Script(env, ids, x) in r.watch && r.watch[Script(env, ids, x)] == x
  {
    if InWindow(ks, x) {
      AddScriptsOld(env, ids[w], w, a, from, count, ks.watch, Script(env, ids, x));
      forall y: nat | from <= y < from + count ensures env.derive(ids[w], a, y) != Script(env, ids, x) {
        assert env.derive(ids[w], a, y) == Script(env, ids, Info(w, a, y));
        assert Info(w, a, y) != x;
      }
    } else {
      forall y: nat | y < from + count && env.derive(ids[w], a, x.idx) == env.derive(ids[w], a, y) ensures x.idx == y {
        Apart(env, ids, w, a, x.idx, y);
      }
      AddScriptsNew(env, ids[w], w, a, from, count, ks.watch, x.idx);
    }
  }

  lemma SoundExtends(env: Env, ids: seq<Hash>, ks: Keys, r: Keys, w: nat, a: Account, from: nat, count: nat, sh: Hash)
    requires |ids| == |ks.wallets| && DistinctScripts(env, ids) && Sound(env, ids, ks)
    requires Extends(ks, r, w, a, from, count) && r.watch == AddScripts(env, ids[w], w, a, from, count, ks.watch)
    requires sh in r.watch
    ensures InWindow(r, r.watch[sh]) && Script(env, ids, r.watch[sh]) == sh
  {
    if y: nat :| from <= y < from + count && env.derive(ids[w], a, y) == sh {
      forall z: nat | z < from + count && env.derive(ids[w], a, y) == env.derive(ids[w], a, z) ensures y == z {
        Apart(env, ids, w, a, y, z);
      }
      AddScriptsNew(env, ids[w], w, a, from, count, ks.watch, y);
    } else {
      AddScriptsOld(env, ids[w], w, a, from, count, ks.watch, sh);
      assert InWindow(ks, ks.watch[sh]);
    }
  }

  // The numbers a refill leaves behind.
  lemma RefillAccountNumbers(env: Env, ks: Keys, w: nat, a: Account)
    requires w < |ks.wallets| && ks.wallets[w].Next(a) + GAP < TWO_32
    ensures var r := RefillAccount(env, ks, w, a);
            r.wallets == ks.wallets[w := ks.wallets[w].WithDerived(a, Max(ks.wallets[w].Derived(a), ks.wallets[w].Next(a) + GAP))]
    ensures Ids(RefillAccount(env, ks, w, a).wallets) == Ids(ks.wallets)
  {
    var wl := ks.wallets[w];
    assert wl.WithDerived(a, wl.Derived(a)) == wl;
    assert ks.wallets[w := wl] == ks.wallets;
  }

  ghost predicate Bounded(ks: Keys) {
    forall w: nat, a: Account :: w < |ks.wallets| ==>
      ks.wallets[w].Derived(a) < TWO_32 && ks.wallets[w].Next(a) + GAP < TWO_32
  }

  // A refill extends the window of one account to its target and disturbs no label.
  lemma RefillAccountKeepsLabels(env: Env, ks: Keys, w: nat, a: Account)
    requires w < |ks.wallets| && DistinctScripts(env, Ids(ks.wallets)) && Labelled(env, ks) && Bounded(ks)
    ensures Labelled(env, RefillAccount(env, ks, w, a))
  {
    var wl := ks.wallets[w];
    var ids := Ids(ks.wallets);
    var from := wl.Derived(a);
    var count := Missing(wl.Next(a), from);
    var r := RefillAccount(env, ks, w, a);
    RefillAccountNumbers(env, ks, w, a);
    if count > 0 {
      assert Extends(ks, r, w, a, from, count);
      forall x: Info | InWindow(r, x) ensures Script(env, ids, x) in r.watch && r.watch[Script(env, ids, x)] == x {
        CoversExtends(env, ids, ks, r, w, a, from, count, x);
      }
      forall sh | sh in r.watch ensures InWindow(r, r.watch[sh]) && Script(env, ids, r.watch[sh]) == sh {
        SoundExtends(env, ids, ks, r, w, a, from, count, sh);
      }
    }
  }

  lemma RefilledBounded(ks: Keys, m: Keys, w: nat, a: Account)
    requires Bounded(ks) && w < |ks.wallets|
    requires m.wallets == ks.wallets[w := ks.wallets[w].WithDerived(a, Max(ks.wallets[w].Derived(a), ks.wallets[w].Next(a) + GAP))]
    ensures Bounded(m)
  {
    forall v: nat, b: Account | v < |m.wallets|
      ensures m.wallets[v].Derived(b) < TWO_32 && m.wallets[v].Next(b) + GAP < TWO_32
    {
      assert ks.wallets[v].Derived(b) < TWO_32 && ks.wallets[v].Next(b) + GAP < TWO_32;
    }
  }

  lemma RefillKeepsLabels(env: Env, ks: Keys, w: nat)
    requires w < |ks.wallets| && DistinctScripts(env, Ids(ks.wallets)) && Labelled(env, ks) && Bounded(ks)
    ensures var r := Refill(env, ks, w);
            Labelled(env, r) && Ids(r.wallets) == Ids(ks.wallets) && r.wallets == ks.wallets[w := Refilled(ks.wallets[w])]
  {
    hide Labelled, DistinctScripts, AddScripts, Missing, RefillAccount;
    RefillAccountKeepsLabels(env, ks, w, Receive);
    RefillAccountNumbers(env, ks, w, Receive);
    var m := RefillAccount(env, ks, w, Receive);
    RefilledBounded(ks, m, w, Receive);
    RefillAccountKeepsLabels(env, m, w, Change);
    RefillAccountNumbers(env, m, w, Change);
  }

  // A wallet with both accounts derived to one gap past their next index.
  function Refilled(wl: Wallet): Wallet {
    wl.(receiveDerived := Max(wl.receiveDerived, wl.nextReceive + GAP),
        changeDerived := Max(wl.changeDerived, wl.nextChange + GAP))
  }

  // The wallet after an output at an index of one of its accounts: the next index moves to one
  // past it or stays, and the derived count is one gap further.
  function Advanced(wl: Wallet, a: Account, idx: nat): Wallet {
    var next := Max(wl.Next(a), idx + 1);
    wl.WithNext(a, next).WithDerived(a, next + GAP)
  }

  // After every recognised output each account is again derived exactly one gap past its next
  // index, the map holds exactly those scripts, and only the label's own account has moved.
  lemma RecogniseKeepsWindow(env: Env, ks: Keys, sh: Hash)
    requires Window(env, ks) && sh in ks.watch && ks.watch[sh].idx < MAX_INDEX
    ensures ks.watch[sh].walletIdx < |ks.wallets|
    ensures var info := ks.watch[sh];
            var r := Recognise(env, ks, info);
            && Window(env, r) && Ids(r.wallets) == Ids(ks.wallets)
            && r.wallets == ks.wallets[info.walletIdx := Advanced(ks.wallets[info.walletIdx], info.account, info.idx)]
  {
    var info := ks.watch[sh];
    assert InWindow(ks, info);
    var w := info.walletIdx;
    var u := UpdateIndexes(ks, info);
    UpdateIndexesKeepsLabels(env, ks, info);
    RefillKeepsLabels(env, u, w);
    var r := Refill(env, u, w);
    UpdateThenRefill(ks, info);
    StaysFull(ks, r, w, info.account, info.idx);
  }

  lemma UpdateThenRefill(ks: Keys, info: Info)
    requires info.walletIdx < |ks.wallets| && info.idx < MAX_INDEX
    requires FullAt(ks, info.walletIdx, Receive) && FullAt(ks, info.walletIdx, Change)
    ensures var w := info.walletIdx;
            var u := UpdateIndexes(ks, info);
            u.wallets[w := Refilled(u.wallets[w])] == ks.wallets[w := Advanced(ks.wallets[w], info.account, info.idx)]
  {
    var w := info.walletIdx;
    var u := UpdateIndexes(ks, info);
    assert u.wallets[w] == ks.wallets[w].WithNext(info.account, Max(ks.wallets[w].Next(info.account), info.idx + 1));
    assert Refilled(u.wallets[w]) == Advanced(ks.wallets[w], info.account, info.idx);
  }

  lemma StaysFull(ks: Keys, r: Keys, w: nat, acc: Account, idx: nat)
    requires forall v: nat, a :: FullAt(ks, v, a)
    requires w < |ks.wallets| && idx < MAX_INDEX && r.wallets == ks.wallets[w := Advanced(ks.wallets[w], acc, idx)]
    ensures forall v: nat, a :: FullAt(r, v, a)
  {
    forall v: nat, a ensures FullAt(r, v, a) {
      assert FullAt(ks, v, a);
    }
  }

  lemma UpdateIndexesKeepsLabels(env: Env, ks: Keys, info: Info)
    requires Window(env, ks) && info.walletIdx < |ks.wallets| && info.idx < MAX_INDEX
    ensures var u := UpdateIndexes(ks, info);
            Labelled(env, u) && Bounded(u) && Ids(u.wallets) == Ids(ks.wallets)
  {
    var u := UpdateIndexes(ks, info);
    assert Ids(u.wallets) == Ids(ks.wallets);
    forall x ensures InWindow(u, x) <==> InWindow(ks, x) {
    }
    forall w: nat, a: Account | w < |u.wallets|
      ensures u.wallets[w].Derived(a) < TWO_32 && u.wallets[w].Next(a) + GAP < TWO_32
    {
      assert FullAt(ks, w, a);
    }
  }

  // setupWallet extends a correct map with the whole window of the new wallet.
  lemma AddWalletKeepsWindow(env: Env, ks: Keys, hash: Hash, height: nat, nextReceive: nat, nextChange: nat)
    requires Window(env, ks) && nextReceive <= MAX_INDEX && nextChange <= MAX_INDEX
    requires DistinctScripts(env, Ids(ks.wallets) + [hash])
    ensures var r := AddWallet(env, ks, hash, height, nextReceive, nextChange);
            && Window(env, r)
            && r.wallets == ks.wallets + [Wallet(hash, height, nextReceive, nextReceive + GAP, nextChange, nextChange + GAP)]
  {
    hide Missing, AddScripts, RefillAccount, Refill;
    var n := |ks.wallets|;
    var b := ks.(wallets := ks.wallets + [Wallet(hash, height, nextReceive, 0, nextChange, 0)]);
    var ids := Ids(ks.wallets);
    assert Ids(b.wallets) == ids + [hash];
    forall x: Info ensures InWindow(b, x) <==> InWindow(ks, x) {
    }
    forall x: Info | x.walletIdx < n ensures Script(env, ids + [hash], x) == Script(env, ids, x) {
    }
    assert Labelled(env, b);
    forall w: nat, a: Account | w < |b.wallets|
      ensures b.wallets[w].Derived(a) < TWO_32 && b.wallets[w].Next(a) + GAP < TWO_32
    {
      assert FullAt(ks, w, a);
    }
    RefillKeepsLabels(env, b, n);
    var r := Refill(env, b, n);
    forall v: nat, a ensures FullAt(r, v, a) {
      assert FullAt(ks, v, a);
    }
  }

  // The map is a function of the wallet hashes and next indexes alone: rebuilding it from the
  // persisted indexes gives the map the running process holds.
  lemma WatchIsDetermined(env: Env, a: Keys, b: Keys)
    requires Window(env, a) && Window(env, b) && Ids(a.wallets) == Ids(b.wallets)
    requires forall w, acc :: 0 <= w < |a.wallets| && w < |b.wallets| ==> a.wallets[w].Next(acc) == b.wallets[w].Next(acc)
    ensures a.watch == b.watch
  {
    assert |a.wallets| == |Ids(a.wallets)| == |b.wallets|;
    forall x: Info ensures InWindow(a, x) <==> InWindow(b, x) {
      assert FullAt(a, x.walletIdx, x.account) && FullAt(b, x.walletIdx, x.account);
    }
    forall sh ensures sh in a.watch ==> sh in b.watch && a.watch[sh] == b.watch[sh] {
      if sh in a.watch { assert InWindow(b, a.watch[sh]); }
    }
    forall sh ensures sh in b.watch ==> sh in a.watch {
      if sh in b.watch { assert InWindow(a, b.watch[sh]); }
    }
  }

  // The window closes when nextIndex + gap wraps a uint32: nothing more is derived.
  lemma WindowWraps(next: nat, derived: nat)
    requires next < TWO_32 && next <= derived
    ensures derived + Missing(next, derived) >= next + GAP
            <==> next + GAP < TWO_32 || derived >= next + GAP
  {
  }

  // In numbers: from the last derived index a refill brings 2000 more, until next + 2000 would reach 2^32.
  lemma WindowIs(next: nat)
    requires next < 0x1_0000_0000
    ensures Missing(next, next) == if next < 4_294_965_296 then 2000 else 0
  {
  }
}
