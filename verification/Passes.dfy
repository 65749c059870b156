// Several passes over one chain. A wallet configured later makes syncWallets start again below blocks
// scanned before, so the tables hold what earlier passes recognised, as far as those passes came,
// beside what the present one has recognised so far.
module Passes {
  import opened Base
  import opened Tables
  import opened Oracle

  // Output op was recognised by a pass that has scanned es[..reach].
  datatype Mark = Mark(reach: nat, op: OutPoint)

  function Known(marks: set<Mark>): set<OutPoint> {
    set m | m in marks :: m.op
  }

  // One pass that has come to q and recognised r.
  function Single(q: nat, r: set<OutPoint>): set<Mark> {
    set o | o in r :: Mark(q, o)
  }

  function At(marks: set<Mark>, q: nat): set<OutPoint> {
    set m | m in marks && m.reach == q :: m.op
  }

  function Beyond(marks: set<Mark>, q: nat): set<Mark> {
    set m | m in marks && m.reach > q
  }

  ghost predicate Within(es: seq<Event>, marks: set<Mark>) {
    forall m :: m in marks ==> m.reach <= |es|
  }

  // ---- The tables after several passes ----

  ghost function StillUnspent(es: seq<Event>, marks: set<Mark>): set<OutPoint>
    requires Within(es, marks)
  {
    set m | m in marks && m.op !in SpentOps(es, m.reach) :: m.op
  }

  ghost function SeenSpent(es: seq<Event>, marks: set<Mark>): (ops: set<OutPoint>)
    requires Within(es, marks)
    ensures ops <= SpentOps(es, |es|)
  {
    set m | m in marks && m.op in SpentOps(es, m.reach) :: m.op
  }

  ghost function Touching(es: seq<Event>, marks: set<Mark>): (ts: set<Hash>)
    requires Within(es, marks)
    ensures forall t :: t in ts ==> Occurs(es, t)
  {
    set m, k | m in marks && 0 <= k < m.reach && es[k].op == m.op :: es[k].txid
  }

  ghost function Pairs(coin: OutPoint -> Utxo, es: seq<Event>, marks: set<Mark>): set<(Hash, Hash)>
    requires Within(es, marks)
  {
    set m, k | m in marks && 0 <= k < m.reach && es[k].op == m.op :: (coin(m.op).sh, es[k].txid)
  }

  ghost function Overlay(coin: OutPoint -> Utxo, es: seq<Event>, marks: set<Mark>): Ledger
    requires Within(es, marks)
  {
    var unspent := Coins(coin, StillUnspent(es, marks));
    Ledger(Rows(es, Touching(es, marks)), Pairs(coin, es, marks), unspent, Spends(coin, es, SeenSpent(es, marks)), unspent)
  }

  // A set of passes that the chain can have given rise to, the present one standing at p.
  ghost predicate Described(coin: OutPoint -> Utxo, es: seq<Event>, p: nat, marks: set<Mark>) {
    Wf(coin, es) && p <= |es| && forall m :: m in marks ==> p <= m.reach <= |es| && m.op in Funded(es, m.reach)
  }

  // ---- Passes add up ----

  lemma KeysAddUp(coin: OutPoint -> Utxo, es: seq<Event>, a: set<Mark>, b: set<Mark>)
    requires Within(es, a) && Within(es, b)
    ensures StillUnspent(es, a + b) == StillUnspent(es, a) + StillUnspent(es, b)
    ensures SeenSpent(es, a + b) == SeenSpent(es, a) + SeenSpent(es, b)
    ensures Touching(es, a + b) == Touching(es, a) + Touching(es, b)
    ensures Pairs(coin, es, a + b) == Pairs(coin, es, a) + Pairs(coin, es, b)
  {
    hide SpentOps;
  }

  lemma OverlayAddsUp(coin: OutPoint -> Utxo, es: seq<Event>, a: set<Mark>, b: set<Mark>)
    requires Within(es, a) && Within(es, b)
    ensures Overlay(coin, es, a + b) == Union(Overlay(coin, es, a), Overlay(coin, es, b))
  {
    hide SpentOps, StillUnspent, SeenSpent, Touching, Pairs, RowOf, Occurs, SpendHeight, Coins, Spends, Rows;
    KeysAddUp(coin, es, a, b);
    var x, y, z := Overlay(coin, es, a), Overlay(coin, es, b), Overlay(coin, es, a + b);
    assert z.unspent == x.unspent + y.unspent;
    assert z.spent == x.spent + y.spent;
    assert z.tx == x.tx + y.tx;
  }

  lemma KeysOfSingle(coin: OutPoint -> Utxo, es: seq<Event>, q: nat, r: set<OutPoint>)
    requires q <= |es|
    ensures StillUnspent(es, Single(q, r)) == r - SpentOps(es, q)
    ensures SeenSpent(es, Single(q, r)) == r * SpentOps(es, q)
    ensures Touching(es, Single(q, r)) == Relevant(es, q, r)
    ensures Pairs(coin, es, Single(q, r)) == ScriptTxs(coin, es, q, r)
  {
    hide SpentOps;
    var s := Single(q, r);
    forall o | o in r ensures Mark(q, o) in s {
    }
    forall t | t in Relevant(es, q, r) ensures t in Touching(es, s) {
      var k :| 0 <= k < q && es[k].op in r && es[k].txid == t;
      assert Mark(q, es[k].op) in s;
    }
    forall x | x in ScriptTxs(coin, es, q, r) ensures x in Pairs(coin, es, s) {
      var k :| 0 <= k < q && es[k].op in r && (coin(es[k].op).sh, es[k].txid) == x;
      assert Mark(q, es[k].op) in s;
    }
  }

  lemma OverlayOfSingle(coin: OutPoint -> Utxo, es: seq<Event>, q: nat, r: set<OutPoint>)
    requires q <= |es|
    ensures Overlay(coin, es, Single(q, r)) == Meaning(coin, es, q, r)
  {
    KeysOfSingle(coin, es, q, r);
  }

  lemma OverlayOfNothing(coin: OutPoint -> Utxo, es: seq<Event>)
    ensures Overlay(coin, es, {}) == EMPTY
  {
    assert Single(0, {}) == {};
    OverlayOfSingle(coin, es, 0, {});
    MeaningOfNothing(coin, es, 0);
  }

  // When every pass has come to q, the tables are those of one scan that recognised everything known.
  lemma PassesMeet(coin: OutPoint -> Utxo, es: seq<Event>, q: nat, marks: set<Mark>)
    requires q <= |es| && forall m :: m in marks ==> m.reach == q
    ensures marks == Single(q, Known(marks))
    ensures Overlay(coin, es, marks) == Meaning(coin, es, q, Known(marks))
  {
    hide Meaning;
    SameReach(q, marks);
    OverlayOfSingle(coin, es, q, Known(marks));
  }

  lemma SameReach(q: nat, marks: set<Mark>)
    requires forall m :: m in marks ==> m.reach == q
    ensures marks == Single(q, Known(marks))
  {
    forall m | m in marks ensures m in Single(q, Known(marks)) {
      assert m == Mark(q, m.op) && m.op in Known(marks);
    }
  }

  lemma KnownOfSingle(q: nat, r: set<OutPoint>)
    ensures Known(Single(q, r)) == r
  {
    forall o | o in r ensures o in Known(Single(q, r)) {
      assert Mark(q, o) in Single(q, r);
    }
  }

  // ---- Facts about such tables ----

  // Every row says what the chain says, and every output was created and its transaction has its row.
  ghost predicate Fits(coin: OutPoint -> Utxo, es: seq<Event>, l: Ledger) {
    && l.index == l.unspent
    && (forall t :: t in l.tx ==> Occurs(es, t) && l.tx[t] == RowOf(es, t))
    && (forall o :: o in l.unspent ==> l.unspent[o] == coin(o) && o in Funded(es, |es|) && o.txid in l.tx)
    && (forall o :: o in l.spent ==> o in Funded(es, |es|) && o in SpentOps(es, |es|) && l.spent[o] == SpentRow(coin(o), SpendHeight(es, o)) && o.txid in l.tx)
    && (forall x :: x in l.sptx ==> x.1 in l.tx)
  }

  lemma OutputTouches(coin: OutPoint -> Utxo, es: seq<Event>, p: nat, marks: set<Mark>, m: Mark)
    requires Described(coin, es, p, marks) && m in marks
    ensures m.op.txid in Touching(es, marks)
  {
    var k :| 0 <= k < m.reach && es[k].Fund? && es[k].op == m.op;
    assert es[k].txid == m.op.txid;
  }

  lemma OverlayFits(coin: OutPoint -> Utxo, es: seq<Event>, p: nat, marks: set<Mark>)
    requires Described(coin, es, p, marks)
    ensures Fits(coin, es, Overlay(coin, es, marks))
  {
    hide Wf, SpentOps, RowOf, Occurs, SpendHeight, Funded;
    forall o | o in StillUnspent(es, marks) || o in SeenSpent(es, marks) ensures o.txid in Touching(es, marks) && o in Funded(es, |es|) {
      var m :| m in marks && m.op == o;
      OutputTouches(coin, es, p, marks, m);
      FundedGrows(es, m.reach, |es|);
    }
    forall x | x in Pairs(coin, es, marks) ensures x.1 in Touching(es, marks) {
      var m, k :| m in marks && 0 <= k < m.reach && es[k].op == m.op && (coin(m.op).sh, es[k].txid) == x;
    }
  }

  // A stored row is the row of an event of the chain.
  lemma FitsRow(coin: OutPoint -> Utxo, es: seq<Event>, l: Ledger, t: Hash) returns (k: nat)
    requires Wf(coin, es) && Fits(coin, es, l) && t in l.tx
    ensures k < |es| && es[k].txid == t && l.tx[t] == es[k].row
  {
    hide Wf, RowOf, SpendHeight, SpentOps;
    k :| 0 <= k < |es| && es[k].txid == t;
    RowOfAt(coin, es, k);
  }

  lemma UnspentIsKnown(coin: OutPoint -> Utxo, es: seq<Event>, marks: set<Mark>)
    requires Within(es, marks)
    ensures Overlay(coin, es, marks).unspent.Keys <= Known(marks)
  {
    hide SpentOps;
    forall o | o in StillUnspent(es, marks) ensures o in Known(marks) {
      var m :| m in marks && m.op == o;
    }
  }

  // ---- One event ----

  // The present pass moves past event p; the others stand.
  ghost function Note(marks: set<Mark>, p: nat, e: Event, noticed: bool): set<Mark> {
    Beyond(marks, p) + Single(p + 1, Notice(At(marks, p), e, noticed))
  }

  lemma KnownNote(marks: set<Mark>, p: nat, e: Event, noticed: bool)
    requires forall m :: m in marks ==> p <= m.reach
    ensures Known(Note(marks, p, e, noticed)) == Notice(Known(marks), e, noticed)
  {
    var near := Notice(At(marks, p), e, noticed);
    forall o | o in Notice(Known(marks), e, noticed) ensures o in Known(Note(marks, p, e, noticed)) {
      if m :| m in marks && m.op == o {
        if m.reach == p {
          assert m.op in At(marks, p);
          assert Mark(p + 1, o) in Single(p + 1, near);
        } else {
          assert m in Beyond(marks, p);
        }
      } else {
        assert Mark(p + 1, o) in Single(p + 1, near);
      }
    }
  }

  lemma NearAndBeyond(marks: set<Mark>, p: nat)
    requires forall m :: m in marks ==> p <= m.reach
    ensures marks == Beyond(marks, p) + Single(p, At(marks, p))
  {
    forall m | m in marks ensures m in Beyond(marks, p) + Single(p, At(marks, p)) {
      if m.reach == p { assert m.op in At(marks, p); }
    }
    forall o | o in At(marks, p) ensures Mark(p, o) in marks {
      var m :| m in marks && m.reach == p && m.op == o;
      assert m == Mark(p, o);
    }
  }

  lemma NoteDescribed(coin: OutPoint -> Utxo, es: seq<Event>, p: nat, marks: set<Mark>, noticed: bool)
    requires Described(coin, es, p, marks) && p < |es|
    ensures Described(coin, es, p + 1, Note(marks, p, es[p], noticed))
    ensures Described(coin, es, p, Beyond(marks, p)) && At(marks, p) <= Funded(es, p)
  {
    hide Wf, Funded;
    FundedGrows(es, p, p + 1);
    FundedHere(es, p);
    forall o | o in At(marks, p) ensures o in Funded(es, p) {
      var m :| m in marks && m.reach == p && m.op == o;
    }
  }

  lemma FundedHere(es: seq<Event>, p: nat)
    requires p < |es|
    ensures es[p].Fund? ==> es[p].op in Funded(es, p + 1)
  {
  }

  // Passes beyond event p have seen it: what it spends is spent in their tables.
  lemma BeyondHasSpent(coin: OutPoint -> Utxo, es: seq<Event>, p: nat, far: set<Mark>)
    requires Within(es, far) && p < |es| && es[p].Spend? && forall m :: m in far ==> m.reach > p
    ensures es[p].op !in Overlay(coin, es, far).unspent
  {
    forall m | m in far && m.op == es[p].op ensures m.op in SpentOps(es, m.reach) {
    }
  }

  // The step: whatever the watched set decides about an output, and however many passes have been
  // here before, the tables keep their meaning. No row is overwritten, so a spent row keeps its
  // first height.
  lemma StepKeepsOverlay(coin: OutPoint -> Utxo, es: seq<Event>, p: nat, marks: set<Mark>, noticed: bool)
    requires Described(coin, es, p, marks) && p < |es|
    ensures Described(coin, es, p + 1, Note(marks, p, es[p], noticed))
    ensures Apply(Overlay(coin, es, marks), es[p], noticed) == Overlay(coin, es, Note(marks, p, es[p], noticed))
  {
    hide Wf, Funded, SpentOps, Overlay, Meaning, Described, Apply;
    NoteDescribed(coin, es, p, marks, noticed);
    var e, far, near := es[p], Beyond(marks, p), At(marks, p);
    var next := Notice(near, e, noticed);
    DescribedWithin(coin, es, p, marks);
    NearAndBeyond(marks, p);
    OverlayAddsUp(coin, es, far, Single(p, near));
    OverlayAddsUp(coin, es, far, Single(p + 1, next));
    OverlayOfSingle(coin, es, p, near);
    OverlayOfSingle(coin, es, p + 1, next);
    StepOnPasses(coin, es, p, far, near, noticed);
  }

  lemma DescribedWithin(coin: OutPoint -> Utxo, es: seq<Event>, p: nat, marks: set<Mark>)
    requires Described(coin, es, p, marks)
    ensures Within(es, marks) && p <= |es| && Wf(coin, es)
    ensures forall m :: m in marks ==> p <= m.reach
  {
  }

  lemma StepOnPasses(coin: OutPoint -> Utxo, es: seq<Event>, p: nat, far: set<Mark>, near: set<OutPoint>, noticed: bool)
    requires Described(coin, es, p, far) && p < |es| && near <= Funded(es, p) && forall m :: m in far ==> m.reach > p
    ensures Apply(Union(Overlay(coin, es, far), Meaning(coin, es, p, near)), es[p], noticed)
            == Union(Overlay(coin, es, far), Meaning(coin, es, p + 1, Notice(near, es[p], noticed)))
  {
    hide Wf, Funded, SpentOps, Overlay, Described, Relevant, ScriptTxs, RowOf, Occurs;
    DescribedWithin(coin, es, p, far);
    OverlayFits(coin, es, p, far);
    RowOfAt(coin, es, p);
    TxRowsAgree(coin, es, p, p, near);
    var e := es[p];
    var a, b := Overlay(coin, es, far), Meaning(coin, es, p, near);
    if e.Fund? {
      Unseen(coin, es, p, near, e.op);
      FundsItsCoin(coin, es, p);
      if noticed {
        FundOnMeaning(coin, es, p, near);
        FundOnUnion(a, b, e);
      } else {
        SkipOnMeaning(es, coin, p, near);
      }
    } else {
      BeyondHasSpent(coin, es, p, far);
      if e.op in near {
        SpendOnMeaning(coin, es, p, near);
        SpendOnUnion(a, b, e);
      } else {
        SkipOnMeaning(es, coin, p, near);
      }
    }
  }

  lemma FundsItsCoin(coin: OutPoint -> Utxo, es: seq<Event>, p: nat)
    requires Wf(coin, es) && p < |es| && es[p].Fund?
    ensures es[p].utxo == coin(es[p].op)
  {
  }

  // ---- Passes over a shared prefix ----

  lemma DescribedShared(coin: OutPoint -> Utxo, es: seq<Event>, fs: seq<Event>, n: nat, p: nat, marks: set<Mark>)
    requires Described(coin, es, p, marks) && Wf(coin, fs) && p <= n <= |es| && n <= |fs| && es[..n] == fs[..n]
    requires forall m :: m in marks ==> m.reach <= n
    ensures Described(coin, fs, p, marks)
  {
    forall m | m in marks ensures m.op in Funded(fs, m.reach) {
      var k :| 0 <= k < m.reach && es[k].Fund? && es[k].op == m.op;
      assert fs[k] == fs[..n][k] == es[..n][k] == es[k];
    }
  }
}
