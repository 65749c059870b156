// The scan proper: events applied to the tables while the watched set grows under them, and the
// exact condition - the gap condition of BIP 44 - under which nothing is missed.
module Scan {
  import opened Base
  import opened Tables
  import opened Oracle
  import opened Passes
  import opened Derivation

  datatype WalletRow = WalletRow(height: nat, nextReceive: nat, nextChange: nat)

  // The state one block transaction works on: the tables with their cache, the keys in memory, the
  // wallet rows, and the script hashes whose subscribers will be notified.
  datatype Scan = Scan(ledger: Ledger, keys: Keys, rows: map<Hash, WalletRow>, updated: set<Hash>)

  // UPDATE wallet SET next_receive_index, next_change_index WHERE hash
  function StoreIndexes(rows: map<Hash, WalletRow>, wl: Wallet): map<Hash, WalletRow> {
    if wl.hash in rows
    then rows[wl.hash := rows[wl.hash].(nextReceive := wl.nextReceive, nextChange := wl.nextChange)]
    else rows
  }

  // UPDATE wallet SET height WHERE hash
  function StoreHeight(rows: map<Hash, WalletRow>, hash: Hash, height: nat): map<Hash, WalletRow> {
    if hash in rows then rows[hash := rows[hash].(height := height)] else rows
  }

  // walletUpdateIndexes writes the row exactly when it moves an index.
  function StoreUpdate(ks: Keys, rows: map<Hash, WalletRow>, info: Info): map<Hash, WalletRow>
    requires info.walletIdx < |ks.wallets|
  {
    if info.idx < ks.wallets[info.walletIdx].Next(info.account) then rows
    else StoreIndexes(rows, UpdateIndexes(ks, info).wallets[info.walletIdx])
  }

  function StepFund(env: Env, s: Scan, e: Event): (r: Scan)
    requires e.Fund? && LabelsInRange(s.keys)
  {
    if e.utxo.sh !in s.keys.watch then s
    else
      var info := s.keys.watch[e.utxo.sh];
      Scan(Apply(s.ledger, e, true), Recognise(env, s.keys, info),
           StoreUpdate(s.keys, s.rows, info), s.updated + {e.utxo.sh})
  }

  function StepSpend(s: Scan, e: Event): Scan
    requires e.Spend?
  {
    if e.op !in s.ledger.index then s
    else s.(ledger := Apply(s.ledger, e, false), updated := s.updated + {s.ledger.index[e.op].sh})
  }

  function Step(env: Env, s: Scan, e: Event): (r: Scan)
    requires LabelsInRange(s.keys)
    ensures LabelsInRange(r.keys)
  {
    if e.Fund? then
      (if e.utxo.sh in s.keys.watch then RecogniseInRange(env, s.keys, s.keys.watch[e.utxo.sh]); StepFund(env, s, e)
       else StepFund(env, s, e))
    else StepSpend(s, e)
  }

  // es[from..to] in order
  function Run(env: Env, s: Scan, es: seq<Event>, from: nat, upto: nat): (r: Scan)
    requires from <= upto <= |es| && LabelsInRange(s.keys)
    ensures LabelsInRange(r.keys)
    decreases upto
  {
    if from == upto then s else Step(env, Run(env, s, es, from, upto - 1), es[upto - 1])
  }

  lemma {:induction false} AddScriptsInRange(env: Env, hash: Hash, w: nat, a: Account, from: nat, count: nat, watch: map<Hash, Info>, n: nat)
    requires w < n && forall sh :: sh in watch ==> watch[sh].walletIdx < n
    ensures forall sh :: sh in AddScripts(env, hash, w, a, from, count, watch)
              ==> AddScripts(env, hash, w, a, from, count, watch)[sh].walletIdx < n
  {
    if count > 0 {
      AddScriptsInRange(env, hash, w, a, from, count - 1, watch, n);
      var m := AddScripts(env, hash, w, a, from, count - 1, watch);
      var last := from + count - 1;
      assert AddScripts(env, hash, w, a, from, count, watch) == m[env.derive(hash, a, last) := Info(w, a, last)];
    }
  }

  lemma RefillAccountInRange(env: Env, ks: Keys, w: nat, a: Account)
    requires w < |ks.wallets| && LabelsInRange(ks)
    ensures var r := RefillAccount(env, ks, w, a); LabelsInRange(r) && |r.wallets| == |ks.wallets|
  {
    var wl := ks.wallets[w];
    AddScriptsInRange(env, wl.hash, w, a, wl.Derived(a), Missing(wl.Next(a), wl.Derived(a)), ks.watch, |ks.wallets|);
  }

  lemma RecogniseInRange(env: Env, ks: Keys, info: Info)
    requires info.walletIdx < |ks.wallets| && LabelsInRange(ks)
    ensures LabelsInRange(Recognise(env, ks, info))
  {
    var u := UpdateIndexes(ks, info);
    RefillAccountInRange(env, u, info.walletIdx, Receive);
    RefillAccountInRange(env, RefillAccount(env, u, info.walletIdx, Receive), info.walletIdx, Change);
  }

  // ---- What a run recognises ----

  ghost predicate Recognised(s: Scan, e: Event) {
    e.Fund? && e.utxo.sh in s.keys.watch
  }

  // The outputs recognised by the run, added to those recognised before it.
  ghost function Seen(env: Env, s: Scan, es: seq<Event>, from: nat, upto: nat, r: set<OutPoint>): set<OutPoint>
    requires from <= upto <= |es| && LabelsInRange(s.keys)
    decreases upto
  {
    if from == upto then r
    else Notice(Seen(env, s, es, from, upto - 1, r), es[upto - 1], Recognised(Run(env, s, es, from, upto - 1), es[upto - 1]))
  }

  lemma StepLedger(env: Env, s: Scan, e: Event)
    requires LabelsInRange(s.keys)
    ensures Step(env, s, e).ledger == Apply(s.ledger, e, Recognised(s, e))
  {
  }

  // The passes after the run: the present one has moved on, with what it recognised.
  ghost function Marked(env: Env, s: Scan, es: seq<Event>, from: nat, upto: nat, marks: set<Mark>): set<Mark>
    requires from <= upto <= |es| && LabelsInRange(s.keys)
    decreases upto
  {
    if from == upto then marks
    else Note(Marked(env, s, es, from, upto - 1, marks), upto - 1, es[upto - 1], Recognised(Run(env, s, es, from, upto - 1), es[upto - 1]))
  }

  // However the watched set moves, and however many passes have been over these blocks before, the
  // tables after a run mean: scanned up to here, these outputs recognised.
  lemma {:induction false} RunKeepsOverlay(env: Env, coin: OutPoint -> Utxo, s: Scan, es: seq<Event>, from: nat, upto: nat, marks: set<Mark>)
    requires from <= upto <= |es| && LabelsInRange(s.keys)
    requires Described(coin, es, from, marks) && s.ledger == Overlay(coin, es, marks)
    ensures Described(coin, es, upto, Marked(env, s, es, from, upto, marks))
    ensures Run(env, s, es, from, upto).ledger == Overlay(coin, es, Marked(env, s, es, from, upto, marks))
    decreases upto
  {
    hide Step, Apply, Note, LabelsInRange, Recognised, Overlay, Described;
    if from < upto {
      RunKeepsOverlay(env, coin, s, es, from, upto - 1, marks);
      var m, before := Run(env, s, es, from, upto - 1), Marked(env, s, es, from, upto - 1, marks);
      StepLedger(env, m, es[upto - 1]);
      StepKeepsOverlay(coin, es, upto - 1, before, Recognised(m, es[upto - 1]));
      DescribedWithin(coin, es, upto, Note(before, upto - 1, es[upto - 1], Recognised(m, es[upto - 1])));
    }
    DescribedWithin(coin, es, upto, Marked(env, s, es, from, upto, marks));
  }

  lemma {:induction false} KnownMarked(env: Env, s: Scan, es: seq<Event>, from: nat, upto: nat, marks: set<Mark>)
    requires from <= upto <= |es| && LabelsInRange(s.keys) && forall m :: m in marks ==> from <= m.reach
    ensures Known(Marked(env, s, es, from, upto, marks)) == Seen(env, s, es, from, upto, Known(marks))
    ensures forall m :: m in Marked(env, s, es, from, upto, marks) ==> upto <= m.reach
    decreases upto
  {
    hide Known, Notice, LabelsInRange, Recognised, Run;
    if from < upto {
      KnownMarked(env, s, es, from, upto - 1, marks);
      KnownNote(Marked(env, s, es, from, upto - 1, marks), upto - 1, es[upto - 1], Recognised(Run(env, s, es, from, upto - 1), es[upto - 1]));
    }
  }

  // A single pass stays one.
  lemma {:induction false} MarkedSingle(env: Env, s: Scan, es: seq<Event>, from: nat, upto: nat, marks: set<Mark>)
    requires from <= upto <= |es| && LabelsInRange(s.keys) && forall m :: m in marks ==> m.reach == from
    ensures forall m :: m in Marked(env, s, es, from, upto, marks) ==> m.reach == upto
    decreases upto
  {
    hide Notice, LabelsInRange, Recognised, Run;
    if from < upto {
      MarkedSingle(env, s, es, from, upto - 1, marks);
    }
  }

  // ---- Owners ----

  ghost predicate Owns(env: Env, ids: seq<Hash>, x: Info, sh: Hash) {
    x.walletIdx < |ids| && x.idx < TWO_32 && Script(env, ids, x) == sh
  }

  ghost function Owner(env: Env, ids: seq<Hash>, sh: Hash): Option<Info> {
    if exists x :: Owns(env, ids, x, sh) then (var x :| Owns(env, ids, x, sh); Some(x)) else None
  }

  lemma OwnerIs(env: Env, ids: seq<Hash>, x: Info, sh: Hash)
    requires DistinctScripts(env, ids) && Owns(env, ids, x, sh)
    ensures Owner(env, ids, sh) == Some(x)
  {
    var y := Owner(env, ids, sh).value;
    assert Owns(env, ids, y, sh);
    assert Script(env, ids, x) == Script(env, ids, y);
  }

  // Wallet outputs sit at non-hardened child indices (BIP 32, section "Extended keys").
  ghost predicate IndexesOk(env: Env, ids: seq<Hash>, es: seq<Event>) {
    forall k :: 0 <= k < |es| && es[k].Fund? && Owner(env, ids, es[k].utxo.sh).Some? ==>
      Owner(env, ids, es[k].utxo.sh).value.idx < MAX_INDEX
  }

  // The configured wallets are the first of ids, and their window is full.
  ghost predicate KeysOk(env: Env, ids: seq<Hash>, ks: Keys) {
    Window(env, ks) && DistinctScripts(env, ids) && |ks.wallets| <= |ids| && Ids(ks.wallets) == ids[..|ks.wallets|]
  }

  // A script is watched exactly when its owner is configured and its index lies inside the window.
  lemma WatchedIff(env: Env, ids: seq<Hash>, ks: Keys, sh: Hash)
    requires KeysOk(env, ids, ks)
    ensures var owner := Owner(env, ids, sh);
            sh in ks.watch <==>
            owner.Some? && owner.value.walletIdx < |ks.wallets|
            && owner.value.idx < ks.wallets[owner.value.walletIdx].Next(owner.value.account) + GAP
    ensures sh in ks.watch ==> Owner(env, ids, sh) == Some(ks.watch[sh])
  {
    hide DistinctScripts;
    forall w | 0 <= w < |ks.wallets| ensures Ids(ks.wallets)[w] == ids[w] {
      assert ids[..|ks.wallets|][w] == ids[w];
    }
    if sh in ks.watch {
      var x := ks.watch[sh];
      assert InWindow(ks, x) && FullAt(ks, x.walletIdx, x.account);
      assert Owns(env, ids, x, sh);
      OwnerIs(env, ids, x, sh);
    }
    var owner := Owner(env, ids, sh);
    if owner.Some? && owner.value.walletIdx < |ks.wallets| {
      var x := owner.value;
      assert Owns(env, ids, x, sh);
      assert FullAt(ks, x.walletIdx, x.account);
      if x.idx < ks.wallets[x.walletIdx].Next(x.account) + GAP {
        assert InWindow(ks, x);
      }
    }
  }

  // ---- The gap condition ----

  // lows says from which event on each wallet is followed, start which indexes it began with.
  // Output k pays a wallet that is followed there.
  ghost predicate Pays(env: Env, ids: seq<Hash>, lows: seq<nat>, es: seq<Event>, k: nat)
    requires k < |es|
  {
    es[k].Fund? && Owner(env, ids, es[k].utxo.sh).Some? &&
    var w := Owner(env, ids, es[k].utxo.sh).value.walletIdx;
    w < |lows| && lows[w] <= k
  }

  // One past the largest index of account (w, a) among the followed outputs before k, or where it started.
  ghost function Used(env: Env, ids: seq<Hash>, start: seq<Wallet>, lows: seq<nat>, es: seq<Event>, k: nat, w: nat, a: Account): nat
    requires k <= |es| && w < |start| == |lows|
    decreases k
  {
    if k <= lows[w] then start[w].Next(a)
    else
      var before := Used(env, ids, start, lows, es, k - 1, w, a);
      var owner := if es[k - 1].Fund? then Owner(env, ids, es[k - 1].utxo.sh) else None;
      if owner.Some? && owner.value.walletIdx == w && owner.value.account == a then Max(before, owner.value.idx + 1) else before
  }

  // Output k, if it pays a wallet, is less than a gap beyond everything its account used before it.
  ghost predicate WithinGap(env: Env, ids: seq<Hash>, start: seq<Wallet>, lows: seq<nat>, es: seq<Event>, k: nat)
    requires k < |es| && |start| == |lows|
  {
    Pays(env, ids, lows, es, k) ==>
      var owner := Owner(env, ids, es[k].utxo.sh).value;
      owner.idx < GAP + Used(env, ids, start, lows, es, k, owner.walletIdx, owner.account)
  }

  ghost predicate GapOk(env: Env, ids: seq<Hash>, start: seq<Wallet>, lows: seq<nat>, es: seq<Event>, upto: nat)
    requires upto <= |es| && |start| == |lows|
  {
    forall k :: 0 <= k < upto ==> WithinGap(env, ids, start, lows, es, k)
  }

  // Every output es[from..upto] pays to a followed wallet, whatever its index: what an oracle watching
  // all indexes records.
  ghost function AllOwned(env: Env, ids: seq<Hash>, lows: seq<nat>, es: seq<Event>, from: nat, upto: nat): set<OutPoint>
    requires upto <= |es|
  {
    set k | from <= k < upto && Pays(env, ids, lows, es, k) :: es[k].op
  }

  lemma AllOwnedNext(env: Env, ids: seq<Hash>, lows: seq<nat>, es: seq<Event>, from: nat, upto: nat)
    requires from <= upto < |es|
    ensures AllOwned(env, ids, lows, es, from, upto + 1) == AllOwned(env, ids, lows, es, from, upto)
              + if Pays(env, ids, lows, es, upto) then {es[upto].op} else {}
  {
    hide Pays;
    forall o | o in AllOwned(env, ids, lows, es, from, upto) ensures o in AllOwned(env, ids, lows, es, from, upto + 1) {
      var k :| from <= k < upto && Pays(env, ids, lows, es, k) && es[k].op == o;
      assert from <= k < upto + 1;
    }
  }

  ghost predicate FollowedAt(lows: seq<nat>, p: nat) {
    forall w :: 0 <= w < |lows| ==> lows[w] <= p
  }

  // ---- The keys along a run ----

  // Heights and hashes stand, next indexes never go down.
  ghost predicate NeverLower(ks: Keys, r: Keys) {
    |r.wallets| == |ks.wallets| &&
    forall w :: 0 <= w < |r.wallets| ==>
      r.wallets[w].hash == ks.wallets[w].hash && r.wallets[w].height == ks.wallets[w].height &&
      r.wallets[w].nextReceive >= ks.wallets[w].nextReceive && r.wallets[w].nextChange >= ks.wallets[w].nextChange
  }

  lemma StepKeepsKeys(env: Env, ids: seq<Hash>, s: Scan, es: seq<Event>, k: nat)
    requires k < |es| && LabelsInRange(s.keys) && KeysOk(env, ids, s.keys) && IndexesOk(env, ids, es)
    ensures var r := Step(env, s, es[k]);
            && KeysOk(env, ids, r.keys)
            && r.keys.wallets == if Recognised(s, es[k])
                                 then var x := s.keys.watch[es[k].utxo.sh];
                                      s.keys.wallets[x.walletIdx := Advanced(s.keys.wallets[x.walletIdx], x.account, x.idx)]
                                 else s.keys.wallets
    ensures NeverLower(s.keys, Step(env, s, es[k]).keys)
  {
    if Recognised(s, es[k]) {
      WatchedIff(env, ids, s.keys, es[k].utxo.sh);
      RecogniseKeepsWindow(env, s.keys, es[k].utxo.sh);
    }
  }

  // The persisted next indexes never fall behind what a gap-respecting chain used, and never run
  // ahead of it when they started with it.
  ghost predicate Ahead(env: Env, ids: seq<Hash>, start: seq<Wallet>, lows: seq<nat>, es: seq<Event>, k: nat, ks: Keys)
    requires k <= |es| && |start| == |lows|
  {
    |start| == |ks.wallets| &&
    forall w: nat, a :: w < |start| ==> Used(env, ids, start, lows, es, k, w, a) <= ks.wallets[w].Next(a)
  }

  ghost predicate Behind(env: Env, ids: seq<Hash>, start: seq<Wallet>, lows: seq<nat>, es: seq<Event>, k: nat, ks: Keys)
    requires k <= |es| && |start| == |lows|
  {
    |start| == |ks.wallets| &&
    forall w: nat, a :: w < |start| ==> ks.wallets[w].Next(a) <= Used(env, ids, start, lows, es, k, w, a)
  }

  lemma StepAhead(env: Env, ids: seq<Hash>, start: seq<Wallet>, lows: seq<nat>, s: Scan, es: seq<Event>, k: nat)
    requires k < |es| && |start| == |lows| && LabelsInRange(s.keys) && KeysOk(env, ids, s.keys) && IndexesOk(env, ids, es)
    requires FollowedAt(lows, k) && Ahead(env, ids, start, lows, es, k, s.keys) && WithinGap(env, ids, start, lows, es, k)
    ensures Recognised(s, es[k]) <==> Pays(env, ids, lows, es, k)
    ensures Ahead(env, ids, start, lows, es, k + 1, Step(env, s, es[k]).keys)
  {
    hide KeysOk, IndexesOk, Step;
    StepKeepsKeys(env, ids, s, es, k);
    if es[k].Fund? {
      WatchedIff(env, ids, s.keys, es[k].utxo.sh);
      var owner := Owner(env, ids, es[k].utxo.sh);
      if owner.Some? && owner.value.walletIdx < |start| {
        assert Used(env, ids, start, lows, es, k, owner.value.walletIdx, owner.value.account)
            <= s.keys.wallets[owner.value.walletIdx].Next(owner.value.account);
      }
    }
    var r := Step(env, s, es[k]).keys;
    forall w: nat, a | w < |start| ensures Used(env, ids, start, lows, es, k + 1, w, a) <= r.wallets[w].Next(a) {
      assert Used(env, ids, start, lows, es, k, w, a) <= s.keys.wallets[w].Next(a);
    }
  }

  lemma StepBehind(env: Env, ids: seq<Hash>, start: seq<Wallet>, lows: seq<nat>, s: Scan, es: seq<Event>, k: nat)
    requires k < |es| && |start| == |lows| && LabelsInRange(s.keys) && KeysOk(env, ids, s.keys) && IndexesOk(env, ids, es)
    requires FollowedAt(lows, k) && Behind(env, ids, start, lows, es, k, s.keys)
    ensures Behind(env, ids, start, lows, es, k + 1, Step(env, s, es[k]).keys)
    ensures !WithinGap(env, ids, start, lows, es, k) ==> Pays(env, ids, lows, es, k) && !Recognised(s, es[k])
  {
    hide KeysOk, IndexesOk, Step;
    StepKeepsKeys(env, ids, s, es, k);
    if es[k].Fund? {
      WatchedIff(env, ids, s.keys, es[k].utxo.sh);
      var owner := Owner(env, ids, es[k].utxo.sh);
      if owner.Some? && owner.value.walletIdx < |start| {
        assert s.keys.wallets[owner.value.walletIdx].Next(owner.value.account)
            <= Used(env, ids, start, lows, es, k, owner.value.walletIdx, owner.value.account);
      }
    }
    var r := Step(env, s, es[k]).keys;
    forall w: nat, a | w < |start| ensures r.wallets[w].Next(a) <= Used(env, ids, start, lows, es, k + 1, w, a) {
      assert s.keys.wallets[w].Next(a) <= Used(env, ids, start, lows, es, k, w, a);
    }
  }

  // ---- Completeness ----

  // On outputs that respect the gap, from keys that are not behind, the run recognises every output
  // to a followed wallet.
  lemma {:induction false} GapComplete(env: Env, ids: seq<Hash>, start: seq<Wallet>, lows: seq<nat>, s: Scan, es: seq<Event>, from: nat, upto: nat, r: set<OutPoint>)
    requires from <= upto <= |es| && |start| == |lows| && LabelsInRange(s.keys) && KeysOk(env, ids, s.keys) && IndexesOk(env, ids, es)
    requires FollowedAt(lows, from) && Ahead(env, ids, start, lows, es, from, s.keys)
    requires forall k :: from <= k < upto ==> WithinGap(env, ids, start, lows, es, k)
    ensures var m := Run(env, s, es, from, upto);
            KeysOk(env, ids, m.keys) && Ahead(env, ids, start, lows, es, upto, m.keys)
    ensures Seen(env, s, es, from, upto, r) == r + AllOwned(env, ids, lows, es, from, upto)
    decreases upto
  {
    hide KeysOk, IndexesOk, Step, WithinGap, Pays, Ahead;
    if from < upto {
      GapComplete(env, ids, start, lows, s, es, from, upto - 1, r);
      var m := Run(env, s, es, from, upto - 1);
      assert WithinGap(env, ids, start, lows, es, upto - 1);
      StepKeepsKeys(env, ids, m, es, upto - 1);
      StepAhead(env, ids, start, lows, m, es, upto - 1);
      AllOwnedNext(env, ids, lows, es, from, upto - 1);
    } else {
      assert AllOwned(env, ids, lows, es, from, upto) == {};
    }
  }

  // A run never recognises anything but outputs to configured wallets, and keeps the window.
  lemma {:induction false} RunSound(env: Env, ids: seq<Hash>, lows: seq<nat>, s: Scan, es: seq<Event>, from: nat, upto: nat, r: set<OutPoint>)
    requires from <= upto <= |es| && LabelsInRange(s.keys) && KeysOk(env, ids, s.keys) && IndexesOk(env, ids, es)
    requires |lows| == |s.keys.wallets| && FollowedAt(lows, from)
    ensures KeysOk(env, ids, Run(env, s, es, from, upto).keys)
    ensures r <= Seen(env, s, es, from, upto, r) <= r + AllOwned(env, ids, lows, es, from, upto)
    ensures NeverLower(s.keys, Run(env, s, es, from, upto).keys)
    decreases upto
  {
    hide KeysOk, IndexesOk, Advanced, Step;
    if from < upto {
      RunSound(env, ids, lows, s, es, from, upto - 1, r);
      var m := Run(env, s, es, from, upto - 1);
      StepKeepsKeys(env, ids, m, es, upto - 1);
      AllOwnedNext(env, ids, lows, es, from, upto - 1);
      if Recognised(m, es[upto - 1]) {
        WatchedIff(env, ids, m.keys, es[upto - 1].utxo.sh);
      }
    }
  }

  lemma {:induction false} RunBehind(env: Env, ids: seq<Hash>, lows: seq<nat>, s: Scan, es: seq<Event>, from: nat, upto: nat)
    requires from <= upto <= |es| && LabelsInRange(s.keys) && KeysOk(env, ids, s.keys) && IndexesOk(env, ids, es)
    requires |lows| == |s.keys.wallets| && forall w :: 0 <= w < |lows| ==> lows[w] == from
    ensures Behind(env, ids, s.keys.wallets, lows, es, upto, Run(env, s, es, from, upto).keys)
    decreases upto
  {
    hide KeysOk, IndexesOk, Step;
    if from < upto {
      RunBehind(env, ids, lows, s, es, from, upto - 1);
      RunSound(env, ids, lows, s, es, from, upto - 1, {});
      StepBehind(env, ids, s.keys.wallets, lows, Run(env, s, es, from, upto - 1), es, upto - 1);
    }
  }

  // ---- What was recognised stays watched ----

  // The owner of output o has a next index beyond it.
  ghost predicate Counted(env: Env, ids: seq<Hash>, coin: OutPoint -> Utxo, ks: Keys, o: OutPoint) {
    var owner := Owner(env, ids, coin(o).sh);
    owner.Some? && owner.value.walletIdx < |ks.wallets| && owner.value.idx < ks.wallets[owner.value.walletIdx].Next(owner.value.account)
  }

  lemma CountedIsWatched(env: Env, ids: seq<Hash>, coin: OutPoint -> Utxo, ks: Keys, o: OutPoint)
    requires KeysOk(env, ids, ks) && Counted(env, ids, coin, ks, o)
    ensures coin(o).sh in ks.watch
  {
    hide KeysOk;
    WatchedIff(env, ids, ks, coin(o).sh);
  }

  lemma {:induction false} RunCounts(env: Env, ids: seq<Hash>, coin: OutPoint -> Utxo, lows: seq<nat>, s: Scan, es: seq<Event>, from: nat, upto: nat, r: set<OutPoint>)
    requires from <= upto <= |es| && LabelsInRange(s.keys) && KeysOk(env, ids, s.keys) && IndexesOk(env, ids, es) && Wf(coin, es)
    requires |lows| == |s.keys.wallets| && FollowedAt(lows, from)
    requires forall o :: o in r ==> Counted(env, ids, coin, s.keys, o)
    ensures forall o :: o in Seen(env, s, es, from, upto, r) ==> Counted(env, ids, coin, Run(env, s, es, from, upto).keys, o)
    decreases upto
  {
    hide KeysOk, IndexesOk, Step, Wf;
    if from < upto {
      RunCounts(env, ids, coin, lows, s, es, from, upto - 1, r);
      RunSound(env, ids, lows, s, es, from, upto - 1, r);
      var m := Run(env, s, es, from, upto - 1);
      StepKeepsKeys(env, ids, m, es, upto - 1);
      if Recognised(m, es[upto - 1]) {
        WatchedIff(env, ids, m.keys, es[upto - 1].utxo.sh);
        FundsItsCoin(coin, es, upto - 1);
      }
    }
  }

  // No other output is event k's.
  ghost predicate Lone(es: seq<Event>, k: nat) {
    k < |es| && es[k].Fund? && forall j :: 0 <= j < |es| && j != k && es[j].Fund? ==> es[j].op != es[k].op
  }

  lemma FundIsLone(coin: OutPoint -> Utxo, es: seq<Event>, k: nat, from: nat, r: set<OutPoint>)
    requires Wf(coin, es) && from <= k < |es| && es[k].Fund? && r <= Funded(es, from)
    ensures Lone(es, k) && es[k].op !in r
  {
  }

  lemma NoticeMisses(r: set<OutPoint>, e: Event, noticed: bool, o: OutPoint)
    requires o !in r && (e.Fund? && e.op == o ==> !noticed)
    ensures o !in Notice(r, e, noticed)
  {
  }

  // An output missed when it was met stays missed.
  lemma {:induction false} MissedForGood(env: Env, s: Scan, es: seq<Event>, from: nat, k: nat, upto: nat, r: set<OutPoint>)
    requires from <= k < |es| && from <= upto <= |es| && LabelsInRange(s.keys)
    requires Lone(es, k) && es[k].op !in r
    requires !Recognised(Run(env, s, es, from, k), es[k])
    ensures es[k].op !in Seen(env, s, es, from, upto, r)
    decreases upto
  {
    hide Step, Recognised, LabelsInRange;
    if from < upto {
      MissedForGood(env, s, es, from, k, upto - 1, r);
      var before, e := Seen(env, s, es, from, upto - 1, r), es[upto - 1];
      var noticed := Recognised(Run(env, s, es, from, upto - 1), e);
      NoticeMisses(before, e, noticed, es[k].op);
    }
  }

  // What a run recognises was created above where it began.
  lemma {:induction false} SeenAbove(env: Env, coin: OutPoint -> Utxo, s: Scan, es: seq<Event>, from: nat, upto: nat, r: set<OutPoint>)
    requires from <= upto <= |es| && LabelsInRange(s.keys) && Wf(coin, es) && r <= Funded(es, from)
    ensures Seen(env, s, es, from, upto, r) * Funded(es, from) == r
    decreases upto
  {
    hide Recognised, Run, LabelsInRange;
    if from < upto {
      SeenAbove(env, coin, s, es, from, upto - 1, r);
      if es[upto - 1].Fund? {
        assert es[upto - 1].op !in Funded(es, from);
      }
    }
  }

  lemma MeaningInjective(coin: OutPoint -> Utxo, es: seq<Event>, p: nat, a: set<OutPoint>, b: set<OutPoint>)
    requires p <= |es| && Meaning(coin, es, p, a) == Meaning(coin, es, p, b)
    ensures a == b
  {
    assert Unspent(coin, es, p, a).Keys + Spent(coin, es, p, a).Keys == a;
    assert Unspent(coin, es, p, b).Keys + Spent(coin, es, p, b).Keys == b;
  }

  lemma MissedShows(coin: OutPoint -> Utxo, es: seq<Event>, p: nat, a: set<OutPoint>, b: set<OutPoint>, o: OutPoint)
    requires p <= |es| && o !in a && o in b
    ensures Meaning(coin, es, p, a) != Meaning(coin, es, p, b)
  {
    if Meaning(coin, es, p, a) == Meaning(coin, es, p, b) {
      MeaningInjective(coin, es, p, a, b);
    }
  }

  function Flat(n: nat, p: nat): seq<nat> {
    seq(n, _ => p)
  }

  // The growing scan leaves exactly the tables of an oracle that watches every index of every
  // account, if and only if the scanned outputs respect the gap.
  lemma GapExact(env: Env, ids: seq<Hash>, coin: OutPoint -> Utxo, s: Scan, es: seq<Event>, from: nat, upto: nat, r: set<OutPoint>)
    requires from <= upto <= |es| && LabelsInRange(s.keys) && KeysOk(env, ids, s.keys) && IndexesOk(env, ids, es)
    requires Wf(coin, es) && r <= Funded(es, from) && s.ledger == Meaning(coin, es, from, r)
    ensures var lows := Flat(|s.keys.wallets|, from);
            Run(env, s, es, from, upto).ledger == Meaning(coin, es, upto, r + AllOwned(env, ids, lows, es, from, upto))
            <==> GapOk(env, ids, s.keys.wallets, lows, es, upto)
  {
    hide Wf, KeysOk, IndexesOk, Meaning, Run, Seen, AllOwned, WithinGap, Ahead, Behind, Step;
    var lows := Flat(|s.keys.wallets|, from);
    var seen := Seen(env, s, es, from, upto, r);
    RunOfOnePass(env, coin, s, es, from, upto, r);
    if GapOk(env, ids, s.keys.wallets, lows, es, upto) {
      AheadAtStart(env, ids, s.keys, es, from);
      GapComplete(env, ids, s.keys.wallets, lows, s, es, from, upto, r);
    } else {
      var k :| 0 <= k < upto && !WithinGap(env, ids, s.keys.wallets, lows, es, k);
      GapFailsAbove(env, ids, s.keys.wallets, lows, es, from, k);
      var m := Run(env, s, es, from, k);
      RunSound(env, ids, lows, s, es, from, k, {});
      RunBehind(env, ids, lows, s, es, from, k);
      StepBehind(env, ids, s.keys.wallets, lows, m, es, k);
      FundIsLone(coin, es, k, from, r);
      MissedForGood(env, s, es, from, k, upto, r);
      OwnedAt(env, ids, lows, es, from, upto, k);
      MissedShows(coin, es, upto, seen, r + AllOwned(env, ids, lows, es, from, upto), es[k].op);
    }
  }

  lemma AheadAtStart(env: Env, ids: seq<Hash>, ks: Keys, es: seq<Event>, from: nat)
    requires from <= |es|
    ensures Ahead(env, ids, ks.wallets, Flat(|ks.wallets|, from), es, from, ks)
  {
  }

  lemma GapFailsAbove(env: Env, ids: seq<Hash>, start: seq<Wallet>, lows: seq<nat>, es: seq<Event>, from: nat, k: nat)
    requires k < |es| && |start| == |lows| && (forall w :: 0 <= w < |lows| ==> lows[w] == from)
    requires !WithinGap(env, ids, start, lows, es, k)
    ensures from <= k && es[k].Fund?
  {
  }

  lemma OwnedAt(env: Env, ids: seq<Hash>, lows: seq<nat>, es: seq<Event>, from: nat, upto: nat, k: nat)
    requires from <= k < upto <= |es| && Pays(env, ids, lows, es, k)
    ensures es[k].op in AllOwned(env, ids, lows, es, from, upto)
  {
  }

  // A single pass over es[from..upto].
  lemma RunOfOnePass(env: Env, coin: OutPoint -> Utxo, s: Scan, es: seq<Event>, from: nat, upto: nat, r: set<OutPoint>)
    requires from <= upto <= |es| && LabelsInRange(s.keys)
    requires Wf(coin, es) && r <= Funded(es, from) && s.ledger == Meaning(coin, es, from, r)
    ensures Run(env, s, es, from, upto).ledger == Meaning(coin, es, upto, Seen(env, s, es, from, upto, r))
  {
    hide Wf, Funded, Meaning, Overlay, Run, Marked, LabelsInRange;
    var marks := Single(from, r);
    OverlayOfSingle(coin, es, from, r);
    KnownOfSingle(from, r);
    RunKeepsOverlay(env, coin, s, es, from, upto, marks);
    MarkedSingle(env, s, es, from, upto, marks);
    KnownMarked(env, s, es, from, upto, marks);
    PassesMeet(coin, es, upto, Marked(env, s, es, from, upto, marks));
  }
}
