// The Merkle tree code of walletmanager.go: an in-place level reduction, the root loop, the
// branch builder and the branch checker, against the recursive definition of the Bitcoin tree.
module Merkle {

  // ---- Reference definitions ----

  // The hash above elements 2i and 2i+1, pairing an odd last element with itself.
  function Above<H>(h: (H, H) -> H, s: seq<H>, i: nat): H
    requires 2 * i < |s|
  {
    h(s[2 * i], if 2 * i + 1 < |s| then s[2 * i + 1] else s[2 * i])
  }

  // One level up.
  function Level<H>(h: (H, H) -> H, s: seq<H>): (r: seq<H>)
    ensures |r| == (|s| + 1) / 2
    ensures forall i :: 0 <= i < |r| ==> r[i] == Above(h, s, i)
  {
    seq((|s| + 1) / 2, i requires 0 <= i < (|s| + 1) / 2 => Above(h, s, i))
  }

  function Root<H>(h: (H, H) -> H, s: seq<H>): H
    requires |s| >= 1
    decreases |s|
  {
    if |s| == 1 then s[0] else Root(h, Level(h, s))
  }

  // Number of levels above n leaves.
  function Depth(n: nat): nat
    requires n >= 1
  {
    if n == 1 then 0 else 1 + Depth((n + 1) / 2)
  }

  // The sibling of position pos: its neighbour, or itself when it is an odd last element.
  function Sibling<H>(s: seq<H>, pos: nat): H
    requires pos < |s|
  {
    if pos % 2 == 1 then s[pos - 1] else if pos + 1 < |s| then s[pos + 1] else s[pos]
  }

  // The siblings met on the way from leaf pos to the root.
  function Branch<H>(h: (H, H) -> H, s: seq<H>, pos: nat): (b: seq<H>)
    requires pos < |s|
    ensures |b| == Depth(|s|)
    decreases |s|
  {
    if |s| == 1 then [] else [Sibling(s, pos)] + Branch(h, Level(h, s), pos / 2)
  }

  // The ordered pair hashed at one step of a branch.
  function Join<H>(cur: H, pos: nat, sib: H): (H, H) {
    if pos % 2 == 0 then (cur, sib) else (sib, cur)
  }

  function Climb<H>(h: (H, H) -> H, cur: H, pos: nat, branch: seq<H>): H
    decreases |branch|
  {
    if branch == [] then cur
    else
      var p := Join(cur, pos, branch[0]);
      Climb(h, h(p.0, p.1), pos / 2, branch[1..])
  }

  lemma ClimbStep<H>(h: (H, H) -> H, cur: H, pos: nat, branch: seq<H>)
    requires branch != []
    ensures var p := Join(cur, pos, branch[0]);
            Climb(h, cur, pos, branch) == Climb(h, h(p.0, p.1), pos / 2, branch[1..])
  {
  }

  // Three leaves: the last is paired with itself.
  lemma ThreeLeaves<H>(h: (H, H) -> H, a: H, b: H, c: H)
    ensures Root(h, [a, b, c]) == h(h(a, b), h(c, c))
    ensures Branch(h, [a, b, c], 0) == [b, h(c, c)] && Branch(h, [a, b, c], 1) == [a, h(c, c)] && Branch(h, [a, b, c], 2) == [c, h(a, b)]
  {
    assert Level(h, [a, b, c]) == [h(a, b), h(c, c)];
    assert Level(h, [h(a, b), h(c, c)]) == [h(h(a, b), h(c, c))];
    assert Root(h, [h(h(a, b), h(c, c))]) == h(h(a, b), h(c, c));
    assert Root(h, [h(a, b), h(c, c)]) == h(h(a, b), h(c, c));
  }

  function Pow2(n: nat): nat { if n == 0 then 1 else 2 * Pow2(n - 1) }

  // ---- Facts about the reference ----

  // Depth is the ceiling of the binary logarithm.
  lemma {:induction false} DepthIsCeilLog2(n: nat)
    requires n >= 1
    ensures n <= Pow2(Depth(n))
    ensures n > 1 ==> Pow2(Depth(n) - 1) < n
  {
    if n > 1 {
      DepthIsCeilLog2((n + 1) / 2);
    }
  }

  // Every leaf's branch climbs to the root.
  lemma {:induction false} BranchClimbsToRoot<H>(h: (H, H) -> H, s: seq<H>, pos: nat)
    requires pos < |s|
    ensures Climb(h, s[pos], pos, Branch(h, s, pos)) == Root(h, s)
    decreases |s|
  {
    if |s| > 1 {
      BranchClimbsToRoot(h, Level(h, s), pos / 2);
      var b := Branch(h, s, pos);
      assert b[1..] == Branch(h, Level(h, s), pos / 2);
    }
  }

  // The pair hashed at step i by a proof, and by the tree above position pos.
  function ProofPair<H>(h: (H, H) -> H, cur: H, pos: nat, branch: seq<H>, i: nat): (H, H)
    requires i < |branch|
    decreases i
  {
    var p := Join(cur, pos, branch[0]);
    if i == 0 then p else ProofPair(h, h(p.0, p.1), pos / 2, branch[1..], i - 1)
  }

  function TreePair<H>(h: (H, H) -> H, s: seq<H>, pos: nat, i: nat): (H, H)
    requires pos < |s| && i < Depth(|s|)
    decreases i
  {
    if i == 0 then Join(s[pos], pos, Sibling(s, pos)) else TreePair(h, Level(h, s), pos / 2, i - 1)
  }

  ghost predicate CollidesAt<H>(h: (H, H) -> H, cur: H, pos: nat, branch: seq<H>, s: seq<H>, i: nat)
    requires pos < |s| && |branch| == Depth(|s|)
  {
    i < |branch| &&
    var p, q := ProofPair(h, cur, pos, branch, i), TreePair(h, s, pos, i);
    p != q && h(p.0, p.1) == h(q.0, q.1)
  }

  // Binding: an accepted branch of the right length proves its leaf and is the honest branch,
  // unless the proof and the tree hash two different pairs to one value at some level.
  lemma {:induction false} BindingOrCollision<H>(h: (H, H) -> H, cur: H, pos: nat, branch: seq<H>, s: seq<H>)
    requires pos < |s| && |branch| == Depth(|s|)
    requires Climb(h, cur, pos, branch) == Root(h, s)
    ensures (cur == s[pos] && branch == Branch(h, s, pos))
            || exists i :: CollidesAt(h, cur, pos, branch, s, i)
    decreases |s|
  {
    if |s| > 1 {
      var p := Join(cur, pos, branch[0]);
      var q := Join(s[pos], pos, Sibling(s, pos));
      var up := Level(h, s);
      assert up[pos / 2] == h(q.0, q.1);
      BindingOrCollision(h, h(p.0, p.1), pos / 2, branch[1..], up);
      if i: nat :| CollidesAt(h, h(p.0, p.1), pos / 2, branch[1..], up, i) {
        assert CollidesAt(h, cur, pos, branch, s, i + 1);
      } else if p != q {
        assert CollidesAt(h, cur, pos, branch, s, 0);
      }
    }
  }

  ghost predicate Injective<H(!new)>(h: (H, H) -> H) {
    forall a, b, c, d :: h(a, b) == h(c, d) ==> a == c && b == d
  }

  // With an injective pair hash the checker accepts exactly the honest branch of the honest leaf.
  lemma {:induction false} BindingExact<H(!new)>(h: (H, H) -> H, cur: H, pos: nat, branch: seq<H>, s: seq<H>)
    requires Injective(h)
    requires pos < |s| && |branch| == Depth(|s|)
    ensures Climb(h, cur, pos, branch) == Root(h, s)
            <==> cur == s[pos] && branch == Branch(h, s, pos)
  {
    if Climb(h, cur, pos, branch) == Root(h, s) {
      BindingOrCollision(h, cur, pos, branch, s);
      forall i ensures !CollidesAt(h, cur, pos, branch, s, i) {
      }
    } else {
      BranchClimbsToRoot(h, s, pos);
    }
  }

  // Without pos < n the position is not bound: an odd last leaf is also accepted one place further.
  lemma PhantomPosition<H>(h: (H, H) -> H, s: seq<H>)
    requires |s| > 1 && |s| % 2 == 1
    ensures Climb(h, s[|s| - 1], |s|, Branch(h, s, |s| - 1)) == Root(h, s)
  {
    var n := |s|;
    var last := s[n - 1];
    BranchClimbsToRoot(h, s, n - 1);
    var b := Branch(h, s, n - 1);
    assert b[0] == last && n / 2 == (n - 1) / 2;
    assert Join(last, n, last) == Join(last, n - 1, last);
    ClimbStep(h, last, n, b);
    ClimbStep(h, last, n - 1, b);
  }

  // At every position, however large, some leaf is accepted with a branch of the right length.
  lemma {:induction false} EveryPositionAccepts<H>(h: (H, H) -> H, s: seq<H>, pos: nat) returns (i: nat, branch: seq<H>)
    requires |s| >= 1
    ensures i < |s| && |branch| == Depth(|s|) && Climb(h, s[i], pos, branch) == Root(h, s)
    decreases |s|
  {
    if |s| == 1 {
      i, branch := 0, [];
    } else {
      var j, above := EveryPositionAccepts(h, Level(h, s), pos / 2);
      var left, right := 2 * j, if 2 * j + 1 < |s| then 2 * j + 1 else 2 * j;
      assert Level(h, s)[j] == h(s[left], s[right]);
      i := if pos % 2 == 0 then left else right;
      branch := [if pos % 2 == 0 then s[right] else s[left]] + above;
      assert branch[1..] == above;
    }
  }

  // With an injective pair hash an accepted leaf is a leaf of the tree, whatever the position.
  lemma {:induction false} AcceptedIsALeaf<H(!new)>(h: (H, H) -> H, cur: H, pos: nat, branch: seq<H>, s: seq<H>)
    requires Injective(h) && |s| >= 1 && |branch| == Depth(|s|)
    requires Climb(h, cur, pos, branch) == Root(h, s)
    ensures cur in s
    decreases |s|
  {
    if |s| > 1 {
      var p := Join(cur, pos, branch[0]);
      AcceptedIsALeaf(h, h(p.0, p.1), pos / 2, branch[1..], Level(h, s));
      var i :| 0 <= i < |Level(h, s)| && Level(h, s)[i] == h(p.0, p.1);
      assert Above(h, s, i) == h(p.0, p.1);
    }
  }

  // So acceptance says which leaf stands at pos if and only if pos lies in the list.
  lemma PositionBoundIff<H(!new)>(h: (H, H) -> H, s: seq<H>, pos: nat)
    requires Injective(h) && |s| >= 1
    ensures (forall cur, branch :: |branch| == Depth(|s|) && Climb(h, cur, pos, branch) == Root(h, s) ==> pos < |s| && cur == s[pos])
            <==> pos < |s|
  {
    if pos < |s| {
      forall cur, branch | |branch| == Depth(|s|) && Climb(h, cur, pos, branch) == Root(h, s) ensures cur == s[pos] {
        BindingExact(h, cur, pos, branch, s);
      }
    } else {
      var i, branch := EveryPositionAccepts(h, s, pos);
      assert |branch| == Depth(|s|) && Climb(h, s[i], pos, branch) == Root(h, s);
    }
  }

  // ---- The level a slice holds after hashPairs: Level, with an odd length padded by its last element ----

  function Padded<H>(s: seq<H>): (r: seq<H>)
  {
    if |s| % 2 == 1 && |s| != 1 then s + [s[|s| - 1]] else s
  }

  lemma PaddingKeepsLevel<H>(h: (H, H) -> H, s: seq<H>)
    ensures Level(h, Padded(s)) == Level(h, s)
  {
  }

  lemma PaddingKeepsRoot<H>(h: (H, H) -> H, s: seq<H>)
    requires |s| >= 1
    ensures Root(h, Padded(s)) == Root(h, s)
  {
    PaddingKeepsLevel(h, s);
  }

  // The padded level holds the sibling where the branch builder looks for it.
  lemma PaddedSibling<H>(h: (H, H) -> H, s: seq<H>, pos: nat)
    requires |s| > 1 && pos < |s|
    ensures pos % 2 == 0 ==> pos + 1 < |Padded(s)| && Padded(s)[pos + 1] == Sibling(s, pos)
    ensures pos % 2 == 1 ==> 1 <= pos < |Padded(s)| && Padded(s)[pos - 1] == Sibling(s, pos)
  {
  }

  lemma BranchGrows<H>(h: (H, H) -> H, s: seq<H>, pos: nat, acc: seq<H>)
    requires |s| > 1 && pos < |s|
    ensures acc + Branch(h, s, pos) == acc + [Sibling(s, pos)] + Branch(h, Level(h, s), pos / 2)
  {
  }

  // ---- The code ----

  lemma LevelAt<H>(h: (H, H) -> H, s: seq<H>, i: nat)
    requires i < |Level(h, s)|
    ensures 2 * i < |s| && Level(h, s)[i] == h(s[2 * i], if 2 * i + 1 < |s| then s[2 * i + 1] else s[2 * i])
  {
  }

  lemma PaddedIs<H>(s: seq<H>)
    ensures Padded(s) == if |s| % 2 == 0 || |s| == 1 then s else s + [s[|s| - 1]]
  {
  }

  // hashPairs: overwrites the first `len` cells of the slice `a` and returns the new length.
  // The appended duplicate lands in the tail the reduction has just freed.
  method HashPairs<H>(h: (H, H) -> H, a: array<H>, len: nat) returns (rlen: nat)
    requires len <= a.Length
    modifies a
    ensures rlen <= len
    ensures a[..rlen] == Padded(Level(h, old(a[..len])))
    ensures a[len..] == old(a[len..])
  {
    hide Level, Above, Padded;
    ghost var was := a[..len];
    ghost var up := Level(h, was);
    rlen := len / 2 + len % 2;
    var i := 0;
    while i < rlen
      invariant 0 <= i <= rlen == |up|
      invariant forall k :: 0 <= k < i ==> a[k] == up[k]
      invariant forall k :: 2 * i <= k < len ==> a[k] == was[k]
      invariant forall k :: len <= k < a.Length ==> a[k] == old(a[k])
    {
      LevelAt(h, was, i);
      var pos := i * 2;
      if pos + 1 > len - 1 {
        a[i] := h(a[pos], a[pos]);
      } else {
        a[i] := h(a[pos], a[pos + 1]);
      }
      i := i + 1;
    }
    assert a[..rlen] == up;
    PaddedIs(up);
    if rlen % 2 != 0 && rlen != 1 {
      a[rlen] := a[rlen - 1];
      rlen := rlen + 1;
    }
  }

  // merkleRoot: on an empty list the source loops for ever, so a caller must pass a leaf.
  method MerkleRoot<H>(h: (H, H) -> H, hashes: seq<H>) returns (root: H)
    requires |hashes| >= 1
    ensures root == Root(h, hashes)
  {
    var lvl := new H[|hashes|](i requires 0 <= i < |hashes| => hashes[i]);
    var len := |hashes|;
    assert lvl[..len] == hashes;
    while len != 1
      invariant 1 <= len <= lvl.Length
      invariant Root(h, lvl[..len]) == Root(h, hashes)
      decreases len
    {
      ghost var up := Level(h, lvl[..len]);
      assert Root(h, up) == Root(h, lvl[..len]);
      PaddingKeepsRoot(h, up);
      len := HashPairs(h, lvl, len);
    }
    root := lvl[0];
  }

  // findPos: the first position of txid, or -1.
  method FindPos<H(==)>(txids: seq<H>, txid: H) returns (pos: int)
    ensures pos < 0 <==> txid !in txids
    ensures pos >= -1
    ensures pos >= 0 ==> pos < |txids| && txids[pos] == txid && txid !in txids[..pos]
  {
    for i := 0 to |txids|
      invariant txid !in txids[..i]
    {
      if txid == txids[i] {
        return i;
      }
    }
    return -1;
  }

  // MerkleProof: first position of txid and its branch.
  method MerkleProof<H(==)>(h: (H, H) -> H, txids: seq<H>, txid: H) returns (txpos: int, branch: seq<H>)
    ensures txpos < 0 <==> txid !in txids
    ensures txpos < 0 ==> txpos == -1 && branch == []
    ensures txpos >= 0 ==> txpos < |txids| && txids[txpos] == txid && txid !in txids[..txpos]
    ensures txpos >= 0 ==> branch == Branch(h, txids, txpos)
  {
    branch := [];
    txpos := FindPos(txids, txid);
    if txpos < 0 {
      return;
    }
    var n := |txids|;
    if n == 1 {
      return;
    }
    // One spare cell is the capacity that append needs for an odd first level.
    var level := new H[n + 1](i requires 0 <= i < n + 1 => if i < n then txids[i] else txids[n - 1]);
    var len := n;
    assert level[..n] == txids;
    if len % 2 != 0 {
      level[len] := level[len - 1];
      len := len + 1;
    }
    var pos := txpos;
    ghost var cur := txids;
    assert level[..len] == Padded(cur);
    while len > 1
      invariant 1 <= len <= level.Length
      invariant 0 <= pos < |cur|
      invariant level[..len] == Padded(cur)
      invariant branch + Branch(h, cur, pos) == Branch(h, txids, txpos)
      decreases |cur|
    {
      PaddedSibling(h, cur, pos);
      BranchGrows(h, cur, pos, branch);
      ghost var padded := level[..len];
      if pos % 2 == 0 {
        assert level[pos + 1] == padded[pos + 1];
        branch := branch + [level[pos + 1]];
      } else {
        assert level[pos - 1] == padded[pos - 1];
        branch := branch + [level[pos - 1]];
      }
      PaddingKeepsLevel(h, cur);
      len := HashPairs(h, level, len);
      cur := Level(h, cur);
      pos := pos / 2;
    }
    assert Branch(h, cur, pos) == [];
  }

  method CheckMerkleProof<H(==)>(h: (H, H) -> H, txid: H, pos: nat, merkleRoot: H, branch: seq<H>) returns (ok: bool)
    ensures ok <==> Climb(h, txid, pos, branch) == merkleRoot
  {
    var current, p := txid, pos;
    for i := 0 to |branch|
      invariant Climb(h, current, p, branch[i..]) == Climb(h, txid, pos, branch)
    {
      if p % 2 == 0 {
        current := h(current, branch[i]);
      } else {
        current := h(branch[i], current);
      }
      p := p / 2;
      assert branch[i..][1..] == branch[i + 1..];
    }
    ok := merkleRoot == current;
  }

  // Completeness end to end: what MerkleProof returns for a member of the list, CheckMerkleProof
  // accepts against MerkleRoot of the same list; with distinct txids it is found where it stands.
  method ProveAndCheck<H(==)>(h: (H, H) -> H, txids: seq<H>, k: nat) returns (pos: int, branch: seq<H>, ok: bool)
    requires k < |txids|
    ensures ok && 0 <= pos <= k && |branch| == Depth(|txids|)
    ensures (forall i, j :: 0 <= i < j < |txids| ==> txids[i] != txids[j]) ==> pos == k
  {
    pos, branch := MerkleProof(h, txids, txids[k]);
    assert txids[k] in txids;
    assert forall j :: 0 <= j < pos ==> txids[..pos][j] == txids[j];
    var root := MerkleRoot(h, txids);
    BranchClimbsToRoot(h, txids, pos);
    ok := CheckMerkleProof(h, txids[k], pos, root, branch);
  }
}
