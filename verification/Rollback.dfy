// deleteAllSinceBlock undoes scanning: on tables that describe a scan it yields exactly the tables
// that described the scan at the fork height, and it is refused exactly when its plain INSERT would
// meet a row that is still unspent.
module RollbackProof {
  import opened Base
  import opened Tables
  import opened Oracle
  import opened Passes

  // Every event's block hash is a stored header at the event's height.
  ghost predicate HeadersCover(es: seq<Event>, header: map<Hash, nat>) {
    forall k :: 0 <= k < |es| ==>
      es[k].row.blockHash in header && header[es[k].row.blockHash] == es[k].height
  }

  // cut is the number of events at or below height h.
  ghost predicate CutAt(es: seq<Event>, h: nat, cut: nat) {
    cut <= |es| && forall k :: 0 <= k < |es| ==> (k < cut <==> es[k].height <= h)
  }

  // ---- What the rollback's joins select ----

  lemma OutputHasRow(coin: OutPoint -> Utxo, es: seq<Event>, p: nat, r: set<OutPoint>, o: OutPoint) returns (k: nat)
    requires Wf(coin, es) && p <= |es| && r <= Funded(es, p) && o in r
    ensures k < p && es[k].Fund? && es[k].op == o && es[k].txid == o.txid
    ensures o.txid in Relevant(es, p, r)
  {
    k :| 0 <= k < p && es[k].Fund? && es[k].op == o;
    assert es[k].op in r;
  }

  lemma TxGoneIff(coin: OutPoint -> Utxo, es: seq<Event>, header: map<Hash, nat>, h: nat, cut: nat, p: nat, r: set<OutPoint>, k: nat)
    requires Wf(coin, es) && p <= |es| && HeadersCover(es, header) && CutAt(es, h, cut)
    requires k < |es| && es[k].txid in Relevant(es, p, r)
    ensures es[k].txid in Orphaned(TxRows(es, p, r), header, h) <==> cut <= k
  {
    RowOfAt(coin, es, k);
  }

  lemma FundedBeforeSpend(coin: OutPoint -> Utxo, es: seq<Event>, p: nat, r: set<OutPoint>, cut: nat, k: nat)
    requires Wf(coin, es) && p <= |es| && r <= Funded(es, p) && cut <= |es|
    requires k < cut && es[k].op in r
    ensures es[k].op in Funded(es, cut)
  {
    var j := OutputHasRow(coin, es, p, r, es[k].op);
    if es[k].Spend? {
      assert j < k;
    } else {
      assert es[k].Fund?;
    }
  }

  lemma RelevantCut(coin: OutPoint -> Utxo, es: seq<Event>, header: map<Hash, nat>, h: nat, cut: nat, p: nat, r: set<OutPoint>, t: Hash)
    requires Wf(coin, es) && p <= |es| && r <= Funded(es, p) && HeadersCover(es, header) && CutAt(es, h, cut)
    ensures t in Relevant(es, Min(p, cut), r * Funded(es, cut))
            <==> t in Relevant(es, p, r) && t !in Orphaned(TxRows(es, p, r), header, h)
  {
    var m, s := Min(p, cut), r * Funded(es, cut);
    if t in Relevant(es, m, s) {
      var k :| 0 <= k < m && es[k].op in s && es[k].txid == t;
      assert es[k].op in r;
      TxGoneIff(coin, es, header, h, cut, p, r, k);
    }
    if t in Relevant(es, p, r) && t !in Orphaned(TxRows(es, p, r), header, h) {
      var k :| 0 <= k < p && es[k].op in r && es[k].txid == t;
      TxGoneIff(coin, es, header, h, cut, p, r, k);
      FundedBeforeSpend(coin, es, p, r, cut, k);
      assert 0 <= k < m && es[k].op in s;
    }
  }

  lemma ScriptTxsCut(coin: OutPoint -> Utxo, es: seq<Event>, header: map<Hash, nat>, h: nat, cut: nat, p: nat, r: set<OutPoint>, x: (Hash, Hash))
    requires Wf(coin, es) && p <= |es| && r <= Funded(es, p) && HeadersCover(es, header) && CutAt(es, h, cut)
    ensures x in ScriptTxs(coin, es, Min(p, cut), r * Funded(es, cut))
            <==> x in ScriptTxs(coin, es, p, r) && x.1 !in Orphaned(TxRows(es, p, r), header, h)
  {
    var m, s := Min(p, cut), r * Funded(es, cut);
    if x in ScriptTxs(coin, es, m, s) {
      var k :| 0 <= k < m && es[k].op in s && (coin(es[k].op).sh, es[k].txid) == x;
      assert es[k].op in r;
      assert es[k].txid in Relevant(es, p, r);
      TxGoneIff(coin, es, header, h, cut, p, r, k);
    }
    if x in ScriptTxs(coin, es, p, r) && x.1 !in Orphaned(TxRows(es, p, r), header, h) {
      var k :| 0 <= k < p && es[k].op in r && (coin(es[k].op).sh, es[k].txid) == x;
      assert es[k].txid in Relevant(es, p, r);
      TxGoneIff(coin, es, header, h, cut, p, r, k);
      FundedBeforeSpend(coin, es, p, r, cut, k);
      assert 0 <= k < m && es[k].op in s;
    }
  }

  lemma OutputGoneIff(coin: OutPoint -> Utxo, es: seq<Event>, header: map<Hash, nat>, h: nat, cut: nat, p: nat, r: set<OutPoint>, o: OutPoint)
    requires Wf(coin, es) && p <= |es| && r <= Funded(es, p) && HeadersCover(es, header) && CutAt(es, h, cut) && o in r
    ensures o.txid in Orphaned(TxRows(es, p, r), header, h) <==> o !in Funded(es, cut)
  {
    var k := OutputHasRow(coin, es, p, r, o);
    TxGoneIff(coin, es, header, h, cut, p, r, k);
    if o in Funded(es, cut) {
      var j :| 0 <= j < cut && es[j].Fund? && es[j].op == o;
      assert j == k;
    }
    if k < cut {
      assert o in Funded(es, cut);
    }
  }

  // A spent output is restored exactly when its spender lies above the cut.
  lemma SpentCut(coin: OutPoint -> Utxo, es: seq<Event>, h: nat, cut: nat, p: nat, r: set<OutPoint>, o: OutPoint)
    requires Wf(coin, es) && p <= |es| && r <= Funded(es, p) && CutAt(es, h, cut) && o in r
    ensures o in SpentOps(es, Min(p, cut))
            <==> o in SpentOps(es, p) && SpendHeight(es, o) <= h
  {
    FundedGrows(es, p, |es|);
    if o in SpentOps(es, p) {
      var k :| 0 <= k < p && es[k].Spend? && es[k].op == o;
      SpendHeightAt(coin, es, k);
      if k < cut {
        assert o in SpentOps(es, Min(p, cut));
      } else {
        forall j | 0 <= j < Min(p, cut) && es[j].Spend? ensures es[j].op != o {
        }
      }
    }
    if o in SpentOps(es, Min(p, cut)) {
      var j :| 0 <= j < Min(p, cut) && es[j].Spend? && es[j].op == o;
      assert 0 <= j < p;
    }
  }

  ghost predicate CutFacts(es: seq<Event>, h: nat, cut: nat, p: nat, r: set<OutPoint>, gone: set<Hash>) {
    p <= |es| && cut <= |es| && forall o :: o in r ==>
      && (o.txid in gone <==> o !in Funded(es, cut))
      && (o in SpentOps(es, p) ==> o in SpentOps(es, |es|))
      && (o in SpentOps(es, Min(p, cut)) <==> o in SpentOps(es, p) && SpendHeight(es, o) <= h)
  }

  lemma CutFactsHold(coin: OutPoint -> Utxo, es: seq<Event>, header: map<Hash, nat>, h: nat, cut: nat, p: nat, r: set<OutPoint>)
    requires Wf(coin, es) && p <= |es| && r <= Funded(es, p) && HeadersCover(es, header) && CutAt(es, h, cut)
    ensures CutFacts(es, h, cut, p, r, Orphaned(TxRows(es, p, r), header, h))
    ensures r * Funded(es, cut) <= Funded(es, Min(p, cut))
    ensures forall o :: o in r && o in SpentOps(es, Min(p, cut)) ==> o in Funded(es, cut)
  {
    forall o | o in r
      ensures o.txid in Orphaned(TxRows(es, p, r), header, h) <==> o !in Funded(es, cut)
      ensures o in SpentOps(es, p) ==> o in SpentOps(es, |es|)
      ensures o in SpentOps(es, Min(p, cut)) <==> o in SpentOps(es, p) && SpendHeight(es, o) <= h
      ensures o in Funded(es, cut) ==> o in Funded(es, Min(p, cut))
      ensures o in SpentOps(es, Min(p, cut)) ==> o in Funded(es, cut)
    {
      OutputGoneIff(coin, es, header, h, cut, p, r, o);
      SpentCut(coin, es, h, cut, p, r, o);
      var j := OutputHasRow(coin, es, p, r, o);
      if o in Funded(es, cut) {
        var k :| 0 <= k < cut && es[k].Fund? && es[k].op == o;
        assert j == k;
      }
      if o in SpentOps(es, Min(p, cut)) {
        var k :| 0 <= k < Min(p, cut) && es[k].Spend? && es[k].op == o;
        FundedBeforeSpend(coin, es, p, r, cut, k);
      }
    }
  }

  lemma TxRowsWithout(es: seq<Event>, p: nat, r: set<OutPoint>, m: nat, s: set<OutPoint>, gone: set<Hash>)
    requires p <= |es| && m <= |es|
    requires forall t :: t in Relevant(es, m, s) <==> t in Relevant(es, p, r) && t !in gone
    ensures TxWithout(TxRows(es, p, r), gone) == TxRows(es, m, s)
  {
  }

  lemma TxRollsBack(coin: OutPoint -> Utxo, es: seq<Event>, header: map<Hash, nat>, h: nat, cut: nat, p: nat, r: set<OutPoint>)
    requires Wf(coin, es) && p <= |es| && r <= Funded(es, p) && HeadersCover(es, header) && CutAt(es, h, cut)
    ensures TxWithout(TxRows(es, p, r), Orphaned(TxRows(es, p, r), header, h))
            == TxRows(es, Min(p, cut), r * Funded(es, cut))
  {
    forall t
      ensures t in Relevant(es, Min(p, cut), r * Funded(es, cut))
              <==> t in Relevant(es, p, r) && t !in Orphaned(TxRows(es, p, r), header, h)
    {
      RelevantCut(coin, es, header, h, cut, p, r, t);
    }
    TxRowsWithout(es, p, r, Min(p, cut), r * Funded(es, cut), Orphaned(TxRows(es, p, r), header, h));
  }

  lemma ScriptTxsRollBack(coin: OutPoint -> Utxo, es: seq<Event>, header: map<Hash, nat>, h: nat, cut: nat, p: nat, r: set<OutPoint>)
    requires Wf(coin, es) && p <= |es| && r <= Funded(es, p) && HeadersCover(es, header) && CutAt(es, h, cut)
    ensures ScriptTxsWithout(ScriptTxs(coin, es, p, r), Orphaned(TxRows(es, p, r), header, h))
            == ScriptTxs(coin, es, Min(p, cut), r * Funded(es, cut))
  {
    forall x
      ensures x in ScriptTxs(coin, es, Min(p, cut), r * Funded(es, cut))
              <==> x in ScriptTxs(coin, es, p, r) && x.1 !in Orphaned(TxRows(es, p, r), header, h)
    {
      ScriptTxsCut(coin, es, header, h, cut, p, r, x);
    }
  }

  lemma UnspentRollsBack(coin: OutPoint -> Utxo, es: seq<Event>, h: nat, cut: nat, p: nat, r: set<OutPoint>, gone: set<Hash>)
    requires CutFacts(es, h, cut, p, r, gone)
    ensures UnspentAt(Unspent(coin, es, p, r), Spent(coin, es, p, r), h, gone)
            == Unspent(coin, es, Min(p, cut), r * Funded(es, cut))
  {
  }

  lemma SpentRollsBack(coin: OutPoint -> Utxo, es: seq<Event>, h: nat, cut: nat, p: nat, r: set<OutPoint>, gone: set<Hash>)
    requires CutFacts(es, h, cut, p, r, gone)
    requires forall o :: o in r && o in SpentOps(es, Min(p, cut)) ==> o in Funded(es, cut)
    ensures SpentUpTo(Spent(coin, es, p, r), h)
            == Spent(coin, es, Min(p, cut), r * Funded(es, cut))
  {
  }

  // ---- Rollback inverts processing ----

  // From tables that describe a scan of es[..p], the rollback to height h leaves exactly the tables
  // that describe the scan up to the cut at h; its plain INSERT cannot fail.
  lemma RollbackInverts(coin: OutPoint -> Utxo, es: seq<Event>, header: map<Hash, nat>, h: nat, cut: nat, p: nat, r: set<OutPoint>)
    requires Wf(coin, es) && p <= |es| && r <= Funded(es, p) && HeadersCover(es, header) && CutAt(es, h, cut)
    ensures RollbackAllowed(Meaning(coin, es, p, r), h)
    ensures Rollback(Meaning(coin, es, p, r), header, h) == Meaning(coin, es, Min(p, cut), r * Funded(es, cut))
    ensures r * Funded(es, cut) <= Funded(es, Min(p, cut))
  {
    CutFactsHold(coin, es, header, h, cut, p, r);
    var gone := Orphaned(TxRows(es, p, r), header, h);
    SpentRollsBack(coin, es, h, cut, p, r, gone);
    UnspentRollsBack(coin, es, h, cut, p, r, gone);
    TxRollsBack(coin, es, header, h, cut, p, r);
    ScriptTxsRollBack(coin, es, header, h, cut, p, r);
  }

  // ---- Several passes ----

  // Two descriptions of one chain: common keys have common rows.
  ghost predicate Agree(a: Ledger, b: Ledger) {
    && (forall t :: t in a.tx && t in b.tx ==> a.tx[t] == b.tx[t])
    && (forall o :: o in a.unspent && o in b.unspent ==> a.unspent[o] == b.unspent[o])
    && (forall o :: o in a.spent && o in b.spent ==> a.spent[o] == b.spent[o])
    && (forall o :: o in a.unspent && o in b.spent ==> a.unspent[o] == b.spent[o].utxo)
    && (forall o :: o in a.spent && o in b.unspent ==> a.spent[o].utxo == b.unspent[o])
  }

  ghost predicate Joined(l: Ledger) {
    && (forall o :: o in l.unspent ==> o.txid in l.tx)
    && (forall o :: o in l.spent ==> o.txid in l.tx)
    && (forall x :: x in l.sptx ==> x.1 in l.tx)
  }

  lemma OrphanedOnUnion(a: Ledger, b: Ledger, header: map<Hash, nat>, h: nat)
    requires Agree(a, b)
    ensures Orphaned(a.tx + b.tx, header, h) == Orphaned(a.tx, header, h) + Orphaned(b.tx, header, h)
    ensures forall t :: t in a.tx ==> (t in Orphaned(b.tx, header, h) ==> t in Orphaned(a.tx, header, h))
    ensures forall t :: t in b.tx ==> (t in Orphaned(a.tx, header, h) ==> t in Orphaned(b.tx, header, h))
  {
  }

  lemma SpentOnUnion(a: map<OutPoint, SpentRow>, b: map<OutPoint, SpentRow>, h: nat)
    requires forall o :: o in a && o in b ==> a[o] == b[o]
    ensures SpentAbove(a + b, h) == SpentAbove(a, h) + SpentAbove(b, h)
    ensures SpentUpTo(a + b, h) == SpentUpTo(a, h) + SpentUpTo(b, h)
  {
  }

  lemma UnspentAtIs(unspent: map<OutPoint, Utxo>, spent: map<OutPoint, SpentRow>, h: nat, gone: set<Hash>)
    ensures var m := UnspentAt(unspent, spent, h, gone);
            && (forall o :: o in m <==> (o in unspent || o in SpentAbove(spent, h)) && o.txid !in gone)
            && (forall o :: o in m ==> m[o] == if o in unspent then unspent[o] else spent[o].utxo)
  {
  }

  lemma UnspentOnUnionAt(a: Ledger, b: Ledger, h: nat, ga: set<Hash>, gb: set<Hash>, o: OutPoint)
    requires Agree(a, b) && Joined(a) && Joined(b)
    requires forall t :: t in a.tx && t in gb ==> t in ga
    requires forall t :: t in b.tx && t in ga ==> t in gb
    ensures var x, y := UnspentAt(a.unspent, a.spent, h, ga), UnspentAt(b.unspent, b.spent, h, gb);
            var z := UnspentAt(a.unspent + b.unspent, a.spent + b.spent, h, ga + gb);
            && (o in z <==> o in x || o in y)
            && (o in y ==> o in z && z[o] == y[o]) && (o in x ==> o in z && z[o] == x[o])
  {
    hide UnspentAt, SpentUpTo, SpentAbove;
    SpentOnUnion(a.spent, b.spent, h);
    SpentAboveIn(a.spent, h);
    SpentAboveIn(b.spent, h);
    UnspentAtIs(a.unspent, a.spent, h, ga);
    UnspentAtIs(b.unspent, b.spent, h, gb);
    UnspentAtIs(a.unspent + b.unspent, a.spent + b.spent, h, ga + gb);
    assert o in a.unspent || o in a.spent ==> o.txid in a.tx;
    assert o in b.unspent || o in b.spent ==> o.txid in b.tx;
  }

  lemma SpentAboveIn(spent: map<OutPoint, SpentRow>, h: nat)
    ensures SpentAbove(spent, h) <= spent.Keys
  {
  }

  lemma UnspentOnUnion(a: Ledger, b: Ledger, h: nat, ga: set<Hash>, gb: set<Hash>)
    requires Agree(a, b) && Joined(a) && Joined(b)
    requires forall t :: t in a.tx && t in gb ==> t in ga
    requires forall t :: t in b.tx && t in ga ==> t in gb
    ensures UnspentAt(a.unspent + b.unspent, a.spent + b.spent, h, ga + gb)
            == UnspentAt(a.unspent, a.spent, h, ga) + UnspentAt(b.unspent, b.spent, h, gb)
  {
    hide UnspentAt, Agree, Joined;
    var x, y := UnspentAt(a.unspent, a.spent, h, ga), UnspentAt(b.unspent, b.spent, h, gb);
    var z := UnspentAt(a.unspent + b.unspent, a.spent + b.spent, h, ga + gb);
    forall o ensures o in z <==> o in x || o in y
             ensures (o in y ==> o in z && z[o] == y[o]) && (o in x ==> o in z && z[o] == x[o])
    {
      UnspentOnUnionAt(a, b, h, ga, gb, o);
    }
  }

  // The rollback works on overlaid descriptions as on each of them.
  lemma RollbackOnUnion(a: Ledger, b: Ledger, header: map<Hash, nat>, h: nat)
    requires Agree(a, b) && Joined(a) && Joined(b)
    ensures Rollback(Union(a, b), header, h) == Union(Rollback(a, header, h), Rollback(b, header, h))
  {
    hide Orphaned, UnspentAt, SpentUpTo, SpentAbove;
    OrphanedOnUnion(a, b, header, h);
    SpentOnUnion(a.spent, b.spent, h);
    var ga, gb := Orphaned(a.tx, header, h), Orphaned(b.tx, header, h);
    UnspentOnUnion(a, b, h, ga, gb);
    assert TxWithout(a.tx + b.tx, ga + gb) == TxWithout(a.tx, ga) + TxWithout(b.tx, gb);
    assert ScriptTxsWithout(a.sptx + b.sptx, ga + gb) == ScriptTxsWithout(a.sptx, ga) + ScriptTxsWithout(b.sptx, gb);
  }

  // What is left of the passes: none reaches beyond the cut, and nothing created beyond it is known.
  ghost function Cut(es: seq<Event>, cut: nat, marks: set<Mark>): set<Mark>
    requires cut <= |es|
  {
    set m | m in marks && m.op in Funded(es, cut) :: Mark(Min(m.reach, cut), m.op)
  }

  lemma CutAddsUp(es: seq<Event>, cut: nat, a: set<Mark>, b: set<Mark>)
    requires cut <= |es|
    ensures Cut(es, cut, a + b) == Cut(es, cut, a) + Cut(es, cut, b)
  {
    hide Funded;
  }

  lemma CutOfSingle(es: seq<Event>, cut: nat, q: nat, r: set<OutPoint>)
    requires cut <= |es|
    ensures Cut(es, cut, Single(q, r)) == Single(Min(q, cut), r * Funded(es, cut))
  {
    hide Funded;
    forall o | o in r * Funded(es, cut) ensures Mark(Min(q, cut), o) in Cut(es, cut, Single(q, r)) {
      assert Mark(q, o) in Single(q, r);
    }
  }

  lemma FitsAgree(coin: OutPoint -> Utxo, es: seq<Event>, a: Ledger, b: Ledger)
    requires Fits(coin, es, a) && Fits(coin, es, b)
    ensures Agree(a, b) && Joined(a) && Joined(b)
  {
    hide SpentOps, RowOf, SpendHeight, Occurs;
  }

  // From the tables of any number of passes the rollback to height h leaves exactly the tables of
  // those passes cut at h.
  lemma {:induction false} RollbackCuts(coin: OutPoint -> Utxo, es: seq<Event>, header: map<Hash, nat>, h: nat, cut: nat, p: nat, marks: set<Mark>)
    requires Described(coin, es, p, marks) && HeadersCover(es, header) && CutAt(es, h, cut)
    ensures Rollback(Overlay(coin, es, marks), header, h) == Overlay(coin, es, Cut(es, cut, marks))
    ensures Described(coin, es, Min(p, cut), Cut(es, cut, marks))
    decreases |marks|
  {
    hide Wf, Funded, Rollback, Overlay, Meaning, HeadersCover, Cut;
    if marks == {} {
      CutOfNothing(coin, es, cut, p);
      OverlayOfNothing(coin, es);
      RollbackOfNothing(header, h);
    } else {
      var m :| m in marks;
      var rest, one := marks - {m}, Single(m.reach, {m.op});
      assert one == {m};
      assert marks == rest + one;
      RollbackCuts(coin, es, header, h, cut, p, rest);
      CutWithin(es, cut, one);
      RollbackCutsOne(coin, es, header, h, cut, p, m);
      OverlayAddsUp(coin, es, rest, one);
      OverlayFits(coin, es, p, rest);
      OverlayFits(coin, es, p, one);
      FitsAgree(coin, es, Overlay(coin, es, rest), Overlay(coin, es, one));
      RollbackOnUnion(Overlay(coin, es, rest), Overlay(coin, es, one), header, h);
      CutAddsUp(es, cut, rest, one);
      OverlayAddsUp(coin, es, Cut(es, cut, rest), Cut(es, cut, one));
    }
  }

  lemma CutWithin(es: seq<Event>, cut: nat, marks: set<Mark>)
    requires cut <= |es|
    ensures Within(es, Cut(es, cut, marks))
  {
    hide Funded;
  }

  lemma RollbackCutsOne(coin: OutPoint -> Utxo, es: seq<Event>, header: map<Hash, nat>, h: nat, cut: nat, p: nat, m: Mark)
    requires cut <= |es| && m.reach <= |es| && Within(es, Single(m.reach, {m.op})) && Within(es, Cut(es, cut, Single(m.reach, {m.op})))
    requires Described(coin, es, p, {m}) && HeadersCover(es, header) && CutAt(es, h, cut)
    ensures var one := Single(m.reach, {m.op});
            && Rollback(Overlay(coin, es, one), header, h) == Overlay(coin, es, Cut(es, cut, one))
            && Described(coin, es, Min(p, cut), Cut(es, cut, one))
  {
    hide Wf, Funded, Rollback, Overlay, Meaning, HeadersCover, Cut;
    assert m in {m};
    var r := {m.op};
    RollbackInverts(coin, es, header, h, cut, m.reach, r);
    CutOfSingle(es, cut, m.reach, r);
    OverlayOfSingle(coin, es, m.reach, r);
    OverlayOfSingle(coin, es, Min(m.reach, cut), r * Funded(es, cut));
  }

  lemma CutOfNothing(coin: OutPoint -> Utxo, es: seq<Event>, cut: nat, p: nat)
    requires Wf(coin, es) && cut <= |es| && p <= |es|
    ensures Cut(es, cut, {}) == {} && Described(coin, es, Min(p, cut), {})
  {
  }

  lemma RollbackOfNothing(header: map<Hash, nat>, h: nat)
    ensures Rollback(EMPTY, header, h) == EMPTY && RollbackAllowed(EMPTY, h)
  {
  }

  // ---- The refused rollback ----

  // An output that one pass still has as unspent and another has seen spent above height h: it stands
  // in unspent_output and in spent_output at once.
  ghost predicate InBoth(es: seq<Event>, marks: set<Mark>, h: nat, o: OutPoint)
    requires Within(es, marks)
  {
    o in StillUnspent(es, marks) && o in SeenSpent(es, marks) && o in SpentOps(es, |es|) && SpendHeight(es, o) > h
  }

  // The plain INSERT of deleteAllSinceBlock fails if and only if there is such an output.
  lemma RollbackRefusedIff(coin: OutPoint -> Utxo, es: seq<Event>, marks: set<Mark>, h: nat)
    requires Within(es, marks)
    ensures RollbackAllowed(Overlay(coin, es, marks), h) <==> forall o :: !InBoth(es, marks, h, o)
  {
    hide SpentOps, StillUnspent, SeenSpent, Touching, Pairs, SpendHeight;
    var l := Overlay(coin, es, marks);
    if o :| InBoth(es, marks, h, o) {
      assert o in SpentAbove(l.spent, h) && o in l.unspent.Keys;
    }
    if !RollbackAllowed(l, h) {
      var o :| o in SpentAbove(l.spent, h) && o in l.unspent.Keys;
      assert InBoth(es, marks, h, o);
    }
  }

  // Passes that stand at one place never make it fail.
  lemma OnePassAllows(coin: OutPoint -> Utxo, es: seq<Event>, q: nat, marks: set<Mark>, h: nat)
    requires q <= |es| && forall m :: m in marks ==> m.reach == q
    ensures RollbackAllowed(Overlay(coin, es, marks), h)
  {
    hide SpentOps;
    RollbackRefusedIff(coin, es, marks, h);
    forall o ensures !InBoth(es, marks, h, o) {
      assert o in StillUnspent(es, marks) ==> o !in SpentOps(es, q);
      assert o in SeenSpent(es, marks) ==> o in SpentOps(es, q);
    }
  }
}
