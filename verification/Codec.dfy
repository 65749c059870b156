// The byte and text encodings the indexer relies on: the 36-byte outpoint key, the flattened
// Merkle branch of a tx row, and the text hashed into an Electrum script hash status.
module Codec {
  import opened Base
  import Merkle

  // ---- Little-endian integers ----

  function Pow256(n: nat): (p: nat)
    ensures p >= 1
  {
    if n == 0 then 1 else 256 * Pow256(n - 1)
  }

  function LE(x: nat, n: nat): (s: seq<byte>)
    ensures |s| == n
  {
    if n == 0 then [] else [(x % 256) as byte] + LE(x / 256, n - 1)
  }

  function FromLE(s: seq<byte>): nat {
    if s == [] then 0 else s[0] as nat + 256 * FromLE(s[1..])
  }

  lemma {:induction false} FromLEOfLE(x: nat, n: nat)
    requires x < Pow256(n)
    ensures FromLE(LE(x, n)) == x
  {
    if n > 0 {
      FromLEOfLE(x / 256, n - 1);
      assert LE(x, n)[1..] == LE(x / 256, n - 1);
    }
  }

  lemma {:induction false} LEOfFromLE(s: seq<byte>)
    ensures FromLE(s) < Pow256(|s|) && LE(FromLE(s), |s|) == s
  {
    if s != [] {
      LEOfFromLE(s[1..]);
      assert s == [s[0]] + s[1..];
    }
  }

  lemma Widths()
    ensures Pow256(32) == TWO_256 && Pow256(4) == TWO_32
  {
    assert Pow256(8) == 0x1_0000000000000000;
    assert Pow256(16) == 0x1_0000000000000000_0000000000000000;
    assert Pow256(24) == 0x1_0000000000000000_0000000000000000_0000000000000000;
  }

  function HashBytes(h: Hash): (s: seq<byte>)
    ensures |s| == 32
  {
    LE(h, 32)
  }

  lemma HashBytesDecode(h: Hash)
    ensures FromLE(HashBytes(h)) == h
  {
    Widths();
    FromLEOfLE(h, 32);
  }

  function HashFrom(s: seq<byte>): (h: Hash)
  {
    FromLE(s) % TWO_256
  }

  lemma HashFromBytes(h: Hash)
    ensures HashFrom(HashBytes(h)) == h
  {
    HashBytesDecode(h);
  }

  // ---- makeTxidVout ----

  function TxidVout(o: OutPoint): (s: seq<byte>)
    ensures |s| == 36
  {
    HashBytes(o.txid) + LE(o.vout, 4)
  }

  // The 36-byte key names one outpoint, and its first 32 bytes (the SUBSTR of the rollback and of
  // the unspent query) are the txid.
  lemma TxidVoutIsFaithful(a: OutPoint, b: OutPoint)
    requires a.vout < TWO_32 && b.vout < TWO_32
    ensures TxidVout(a) == TxidVout(b) <==> a == b
    ensures TxidVout(a)[..32] == TxidVout(b)[..32] <==> a.txid == b.txid
  {
    Widths();
    assert TxidVout(a)[..32] == HashBytes(a.txid) && TxidVout(b)[..32] == HashBytes(b.txid);
    assert TxidVout(a)[32..] == LE(a.vout, 4) && TxidVout(b)[32..] == LE(b.vout, 4);
    HashBytesDecode(a.txid);
    HashBytesDecode(b.txid);
    FromLEOfLE(a.vout, 4);
    FromLEOfLE(b.vout, 4);
  }

  // ---- Merkle branches as bytes ----

  function Flatten(branch: seq<Hash>): (s: seq<byte>)
    ensures |s| == 32 * |branch|
  {
    if branch == [] then [] else Flatten(branch[..|branch| - 1]) + HashBytes(branch[|branch| - 1])
  }

  lemma {:induction false} FlattenAt(branch: seq<Hash>, k: nat)
    requires k < |branch|
    ensures Flatten(branch)[32 * k..32 * k + 32] == HashBytes(branch[k])
  {
    var n := |branch| - 1;
    if k < n {
      FlattenAt(branch[..n], k);
      assert Flatten(branch)[32 * k..32 * k + 32] == Flatten(branch[..n])[32 * k..32 * k + 32];
    }
  }

  // The writing half (the append loop of processOutput and processInput).
  method FlattenBranch(branch: seq<Hash>) returns (buf: seq<byte>)
    ensures buf == Flatten(branch)
  {
    buf := [];
    for i := 0 to |branch|
      invariant buf == Flatten(branch[..i])
    {
      assert branch[..i + 1][..i] == branch[..i];
      buf := buf + HashBytes(branch[i]);
    }
    assert branch[..|branch|] == branch;
  }

  // The reading half (GetTransactionMerkle): cut the bytes back into hashes.
  method CutBranch(proof: seq<byte>) returns (branch: seq<Hash>)
    requires |proof| % 32 == 0
    ensures forall b :: proof == Flatten(b) ==> branch == b
  {
    branch := [];
    var i := 0;
    while i < |proof|
      invariant 0 <= i <= |proof| && i % 32 == 0
      invariant |branch| == i / 32
      invariant forall k :: 0 <= k < |branch| ==> branch[k] == HashFrom(proof[32 * k..32 * k + 32])
    {
      branch := branch + [HashFrom(proof[i..i + 32])];
      i := i + 32;
    }
    forall b | proof == Flatten(b) ensures branch == b {
      forall k | 0 <= k < |b| ensures branch[k] == b[k] {
        FlattenAt(b, k);
        HashFromBytes(b[k]);
      }
    }
  }

  // What a tx row stores can be cut back into a branch that proves the row's txid at its position:
  // the bytes determine the branch, and the branch climbs to the block's Merkle root.
  lemma StoredProofVerifies(h: (Hash, Hash) -> Hash, txids: seq<Hash>, pos: nat, cut: seq<Hash>)
    requires pos < |txids|
    requires Flatten(cut) == Flatten(Merkle.Branch(h, txids, pos))
    ensures Merkle.Climb(h, txids[pos], pos, cut) == Merkle.Root(h, txids)
  {
    var b := Merkle.Branch(h, txids, pos);
    forall k | 0 <= k < |cut| ensures cut[k] == b[k] {
      FlattenAt(cut, k);
      FlattenAt(b, k);
      HashBytesDecode(cut[k]);
      HashBytesDecode(b[k]);
    }
    assert cut == b;
    Merkle.BranchClimbsToRoot(h, txids, pos);
  }

  // ---- shStatus ----

  datatype TxData = TxData(height: nat, txid: Hash)

  function HexDigit(d: nat): char
    requires d < 16
  {
    if d < 10 then '0' + (d as char) else 'a' + ((d - 10) as char)
  }

  function HexValue(c: char): int {
    if c <= '9' then (c as int - '0' as int) else (c as int - 'a' as int + 10)
  }

  // hex.Encode
  function Hex(s: seq<byte>): (t: string)
    ensures |t| == 2 * |s|
  {
    if s == [] then []
    else [HexDigit(s[0] as nat / 16), HexDigit(s[0] as nat % 16)] + Hex(s[1..])
  }

  lemma {:induction false} HexInjective(a: seq<byte>, b: seq<byte>)
    requires Hex(a) == Hex(b)
    ensures a == b
  {
    assert |a| == |b|;
    if a != [] {
      assert Hex(a)[0] == Hex(b)[0] && Hex(a)[1] == Hex(b)[1];
      HexDigitInjective(a[0] as nat / 16, b[0] as nat / 16);
      HexDigitInjective(a[0] as nat % 16, b[0] as nat % 16);
      assert Hex(a)[2..] == Hex(a[1..]) && Hex(b)[2..] == Hex(b[1..]);
      HexInjective(a[1..], b[1..]);
      assert a == [a[0]] + a[1..] && b == [b[0]] + b[1..];
    }
  }

  // slices.Reverse, on the bytes and on the hash they spell.
  function Reverse(s: seq<byte>): (r: seq<byte>)
    ensures |r| == |s| && forall i :: 0 <= i < |r| ==> r[i] == s[|s| - 1 - i]
  {
    seq(|s|, i requires 0 <= i < |s| => s[|s| - 1 - i])
  }

  function Flip(h: Hash): Hash {
    HashFrom(Reverse(HashBytes(h)))
  }

  lemma HashFromIs(s: seq<byte>)
    requires |s| == 32
    ensures HashBytes(HashFrom(s)) == s
  {
    hide FromLE, LE;
    Widths();
    LEOfFromLE(s);
  }

  lemma HashBytesOfFlip(h: Hash)
    ensures HashBytes(Flip(h)) == Reverse(HashBytes(h))
    ensures Flip(Flip(h)) == h
  {
    hide HashBytes, HashFrom;
    HashFromIs(Reverse(HashBytes(h)));
    assert Reverse(Reverse(HashBytes(h))) == HashBytes(h);
    HashFromBytes(h);
  }

  lemma HexDigitInjective(d: nat, e: nat)
    requires d < 16 && e < 16 && HexDigit(d) == HexDigit(e)
    ensures d == e
  {
    assert HexValue(HexDigit(d)) == d && HexValue(HexDigit(e)) == e;
  }

  function Decimal(n: nat): (t: string)
    ensures |t| >= 1
    ensures forall i :: 0 <= i < |t| ==> '0' <= t[i] <= '9'
  {
    if n < 10 then ['0' + (n as char)] else Decimal(n / 10) + ['0' + ((n % 10) as char)]
  }

  function DecimalValue(t: string): int {
    if t == [] then 0 else 10 * DecimalValue(t[..|t| - 1]) + (t[|t| - 1] as int - '0' as int)
  }

  lemma {:induction false} DecimalValueOfDecimal(n: nat)
    ensures DecimalValue(Decimal(n)) == n
  {
    var t := Decimal(n);
    if n < 10 {
      assert t[..0] == [];
    } else {
      assert t[..|t| - 1] == Decimal(n / 10);
      DecimalValueOfDecimal(n / 10);
    }
  }

  // One history entry as text: 64 hex digits, a colon, the decimal height, a colon.
  function EntryText(e: TxData): string {
    Hex(Reverse(HashBytes(e.txid))) + ":" + Decimal(e.height) + ":"
  }

  function StatusText(hist: seq<TxData>): string {
    if hist == [] then "" else EntryText(hist[0]) + StatusText(hist[1..])
  }

  // An entry's text is a prefix code: followed by anything, it still determines the entry.
  lemma EntryTextPrefixFree(a: TxData, b: TxData, s: string, t: string)
    requires EntryText(a) + s == EntryText(b) + t
    ensures a == b && s == t
  {
    hide HashBytes, HashFrom, Hex, Decimal;
    var whole := EntryText(a) + s;
    var ra, rb := Reverse(HashBytes(a.txid)), Reverse(HashBytes(b.txid));
    assert whole[..64] == Hex(ra) && whole[..64] == Hex(rb);
    HexInjective(ra, rb);
    HashBytesOfFlip(a.txid);
    HashBytesOfFlip(b.txid);
    var da, db := Decimal(a.height), Decimal(b.height);
    var rest := whole[65..];
    assert rest == da + ":" + s && rest == db + ":" + t;
    SplitAtColon(da, db, s, t);
    DecimalValueOfDecimal(a.height);
    DecimalValueOfDecimal(b.height);
  }

  lemma SplitAtColon(da: string, db: string, s: string, t: string)
    requires da + ":" + s == db + ":" + t
    requires forall i :: 0 <= i < |da| ==> '0' <= da[i] <= '9'
    requires forall i :: 0 <= i < |db| ==> '0' <= db[i] <= '9'
    ensures da == db && s == t
  {
    var x := da + ":" + s;
    var y := db + ":" + t;
    assert x[|da|] == ':' && y[|db|] == ':';
    assert forall i :: 0 <= i < |da| ==> x[i] == da[i];
    assert forall i :: 0 <= i < |db| ==> y[i] == db[i];
    assert |da| == |db|;
    assert x[..|da|] == da && y[..|db|] == db;
    assert x[|da| + 1..] == s && y[|db| + 1..] == t;
  }

  // The preimage of a status is uniquely decodable.
  lemma {:induction false} StatusTextInjective(a: seq<TxData>, b: seq<TxData>)
    requires StatusText(a) == StatusText(b)
    ensures a == b
  {
    if a != [] && b != [] {
      EntryTextPrefixFree(a[0], b[0], StatusText(a[1..]), StatusText(b[1..]));
      StatusTextInjective(a[1..], b[1..]);
      assert a == [a[0]] + a[1..] && b == [b[0]] + b[1..];
    }
  }

  // ---- The layout of that text, position by position ----

  const DIGITS: string := "0123456789abcdef"

  // Byte i of a hash in memory, counted from the first.
  function ByteOf(h: Hash, i: nat): (b: nat)
    ensures b < 256
  {
    (h / Pow256(i)) % 256
  }

  // 64 digits, two a byte, from the last byte of the hash to the first.
  ghost predicate IsHexOf(text: string, h: Hash) {
    |text| == 64 && forall k :: 0 <= k < 32 ==>
      text[2 * k] == DIGITS[ByteOf(h, 31 - k) / 16] && text[2 * k + 1] == DIGITS[ByteOf(h, 31 - k) % 16]
  }

  // The decimal digits of n, none of them a leading zero.
  ghost predicate IsDecimalOf(text: string, n: nat) {
    text != [] && (forall i :: 0 <= i < |text| ==> '0' <= text[i] <= '9') && (text[0] == '0' ==> |text| == 1) && DecimalValue(text) == n
  }

  // An entry that ends before position end: hash, colon, height, colon.
  ghost predicate IsEntryText(text: string, e: TxData) {
    |text| > 66 && IsHexOf(text[..64], e.txid) && text[64] == ':' && IsDecimalOf(text[65..|text| - 1], e.height) && text[|text| - 1] == ':'
  }

  // Entry after entry.
  ghost predicate IsStatusText(text: string, hist: seq<TxData>) {
    if hist == [] then text == ""
    else exists n :: 0 <= n <= |text| && IsEntryText(text[..n], hist[0]) && IsStatusText(text[n..], hist[1..])
  }

  lemma {:induction false} LEAt(x: nat, n: nat, i: nat)
    requires i < n
    ensures LE(x, n)[i] as nat == (x / Pow256(i)) % 256
  {
    if i > 0 {
      LEAt(x / 256, n - 1, i - 1);
      DivideTwice(x, Pow256(i - 1));
    }
  }

  lemma DivideTwice(x: nat, p: nat)
    requires p >= 1
    ensures x / 256 / p == x / (256 * p)
  {
    var q, r := x / (256 * p), x % (256 * p);
    assert x == 256 * (q * p) + r;
    assert x / 256 == q * p + r / 256;
    assert r / 256 < p;
    DivideIs(q * p + r / 256, p, q, r / 256);
  }

  lemma DivideIs(x: nat, p: nat, q: nat, r: nat)
    requires p >= 1 && r < p && x == q * p + r
    ensures x / p == q
  {
    Multiples(x / p - q, p);
    assert (x / p - q) * p == (x / p) * p - q * p == r - x % p;
  }

  lemma Multiples(d: int, p: nat)
    ensures d >= 1 ==> d * p >= p
    ensures d <= -1 ==> d * p <= 0 - p
  {
    if d >= 1 { assert (d - 1) * p >= 0; }
    if d <= -1 { assert (-d - 1) * p >= 0; }
  }

  // The encodings of a hash and of an outpoint, byte by byte, the output index little-endian behind the txid.
  lemma HashBytesAt(h: Hash, i: nat)
    requires i < 32
    ensures HashBytes(h)[i] as nat == ByteOf(h, i)
  {
    LEAt(h, 32, i);
  }

  lemma TxidVoutAt(o: OutPoint, i: nat)
    requires i < 36
    ensures TxidVout(o)[i] as nat == if i < 32 then ByteOf(o.txid, i) else (o.vout / Pow256(i - 32)) % 256
  {
    if i < 32 { HashBytesAt(o.txid, i); } else { LEAt(o.vout, 4, i - 32); }
  }

  // hex.Encode writes lower-case digits, the high half of each byte first.
  lemma {:induction false} HexAt(s: seq<byte>, k: nat)
    requires k < |s|
    ensures Hex(s)[2 * k] == DIGITS[s[k] as nat / 16] && Hex(s)[2 * k + 1] == DIGITS[s[k] as nat % 16]
  {
    if k == 0 {
      HexDigitIs(s[0] as nat / 16);
      HexDigitIs(s[0] as nat % 16);
    } else {
      HexAt(s[1..], k - 1);
    }
  }

  lemma HexDigitIs(d: nat)
    requires d < 16
    ensures HexDigit(d) == DIGITS[d]
  {
  }

  lemma HexOfHash(h: Hash)
    ensures IsHexOf(Hex(Reverse(HashBytes(h))), h)
  {
    hide Hex, HashBytes;
    var bytes := Reverse(HashBytes(h));
    forall k | 0 <= k < 32
      ensures Hex(bytes)[2 * k] == DIGITS[ByteOf(h, 31 - k) / 16] && Hex(bytes)[2 * k + 1] == DIGITS[ByteOf(h, 31 - k) % 16]
    {
      HexAt(bytes, k);
      HashBytesAt(h, 31 - k);
    }
  }

  lemma {:induction false} DecimalOfHeight(n: nat)
    ensures IsDecimalOf(Decimal(n), n)
  {
    DecimalValueOfDecimal(n);
    if n >= 10 {
      DecimalOfHeight(n / 10);
    }
  }

  lemma EntryHasLayout(e: TxData)
    ensures IsEntryText(EntryText(e), e)
  {
    hide IsHexOf, IsDecimalOf, HashBytes, Hex, Decimal;
    var text, hex, dec := EntryText(e), Hex(Reverse(HashBytes(e.txid))), Decimal(e.height);
    HexOfHash(e.txid);
    DecimalOfHeight(e.height);
    assert text[..64] == hex && text[65..|text| - 1] == dec;
  }

  lemma {:induction false} StatusHasLayout(hist: seq<TxData>)
    ensures IsStatusText(StatusText(hist), hist)
  {
    hide IsEntryText, EntryText;
    if hist != [] {
      var text, n := StatusText(hist), |EntryText(hist[0])|;
      EntryHasLayout(hist[0]);
      StatusHasLayout(hist[1..]);
      assert text[..n] == EntryText(hist[0]) && text[n..] == StatusText(hist[1..]);
    }
  }

  // There is one such text.
  lemma {:induction false} DecimalIsOne(a: string, b: string, n: nat)
    requires IsDecimalOf(a, n) && IsDecimalOf(b, n)
    ensures a == b
    decreases |a|
  {
    var x, y := a[..|a| - 1], b[..|b| - 1];
    Positive(a);
    Positive(b);
    assert a == x + [a[|a| - 1]] && b == y + [b[|b| - 1]];
    if |a| > 1 && |b| > 1 {
      Leading(a);
      Leading(b);
      DecimalIsOne(x, y, n / 10);
    } else {
      assert DecimalValue([]) == 0;
      if |a| > 1 { Leading(a); }
      if |b| > 1 { Leading(b); }
    }
  }

  lemma {:induction false} Positive(a: string)
    requires forall i :: 0 <= i < |a| ==> '0' <= a[i] <= '9'
    ensures DecimalValue(a) >= 0 && (a != [] && a[0] != '0' ==> DecimalValue(a) > 0)
    decreases |a|
  {
    if a != [] {
      Positive(a[..|a| - 1]);
    }
  }

  // What stands before the last digit is the number of tens, and not 0.
  lemma Leading(a: string)
    requires |a| > 1 && DecimalValue(a) >= 0 && IsDecimalOf(a, DecimalValue(a))
    ensures DecimalValue(a) >= 10 && IsDecimalOf(a[..|a| - 1], DecimalValue(a) / 10)
  {
    Positive(a[..|a| - 1]);
  }

  lemma EntryIsOne(a: string, b: string, e: TxData)
    requires IsEntryText(a, e) && IsEntryText(b, e)
    ensures a == b
  {
    hide IsDecimalOf, ByteOf;
    var x, y := a[..64], b[..64];
    forall i | 0 <= i < 64 ensures x[i] == y[i] {
      assert i == 2 * (i / 2) || i == 2 * (i / 2) + 1;
    }
    DecimalIsOne(a[65..|a| - 1], b[65..|b| - 1], e.height);
    assert a == x + ":" + a[65..|a| - 1] + ":" && b == y + ":" + b[65..|b| - 1] + ":";
  }

  lemma {:induction false} StatusTextIsOne(a: string, b: string, hist: seq<TxData>)
    requires IsStatusText(a, hist) && IsStatusText(b, hist)
    ensures a == b
    decreases |hist|
  {
    hide IsEntryText;
    if hist != [] {
      var n :| 0 <= n <= |a| && IsEntryText(a[..n], hist[0]) && IsStatusText(a[n..], hist[1..]);
      var m :| 0 <= m <= |b| && IsEntryText(b[..m], hist[0]) && IsStatusText(b[m..], hist[1..]);
      EntryIsOne(a[..n], b[..m], hist[0]);
      StatusTextIsOne(a[n..], b[m..], hist[1..]);
      assert a == a[..n] + a[n..] && b == b[..m] + b[m..];
    }
  }

  // A text is hashed into the status if and only if it has that layout.
  lemma StatusTextIff(text: string, hist: seq<TxData>)
    ensures text == StatusText(hist) <==> IsStatusText(text, hist)
  {
    hide StatusText, IsStatusText;
    StatusHasLayout(hist);
    if IsStatusText(text, hist) {
      StatusTextIsOne(text, StatusText(hist), hist);
    }
  }

  // The Electrum status of a history: nothing when empty, else the hash of its text.
  function Status(sha: string -> Hash, hist: seq<TxData>): Option<Hash> {
    if hist == [] then None else Some(sha(StatusText(hist)))
  }

  // For instance.
  function Zeros(n: nat): (t: string)
    ensures |t| == n && forall i :: 0 <= i < n ==> t[i] == '0'
  {
    seq(n, _ => '0')
  }

  lemma SmallBytes(h: Hash, n: nat, i: nat)
    requires h < Pow256(n) && n <= i
    ensures ByteOf(h, i) == 0
  {
    PowGrows(n, i);
    DivideIs(h, Pow256(i), 0, h);
  }

  lemma {:induction false} PowGrows(n: nat, i: nat)
    requires n <= i
    ensures Pow256(n) <= Pow256(i)
    decreases i
  {
    if n < i { PowGrows(n, i - 1); }
  }

  // The text of a hash whose bytes from n on are 0.
  lemma SmallHex(low: string, h: Hash, n: nat)
    requires n <= 32 && h < Pow256(n) && |low| == 2 * n
    requires forall k :: 0 <= k < n ==> low[2 * k] == DIGITS[ByteOf(h, n - 1 - k) / 16] && low[2 * k + 1] == DIGITS[ByteOf(h, n - 1 - k) % 16]
    ensures IsHexOf(Zeros(64 - 2 * n) + low, h)
  {
    hide ByteOf;
    var text := Zeros(64 - 2 * n) + low;
    forall k | 0 <= k < 32
      ensures text[2 * k] == DIGITS[ByteOf(h, 31 - k) / 16] && text[2 * k + 1] == DIGITS[ByteOf(h, 31 - k) % 16]
    {
      if k < 32 - n {
        SmallBytes(h, n, 31 - k);
      } else {
        assert text[2 * k] == low[2 * (k - (32 - n))] && text[2 * k + 1] == low[2 * (k - (32 - n)) + 1];
        assert n - 1 - (k - (32 - n)) == 31 - k;
      }
    }
  }

  lemma SmallEntry(low: string, n: nat, dec: string, e: TxData)
    requires n <= 32 && |low| == 2 * n && IsHexOf(Zeros(64 - 2 * n) + low, e.txid) && IsDecimalOf(dec, e.height)
    ensures IsEntryText(Zeros(64 - 2 * n) + low + ":" + dec + ":", e)
  {
    hide IsHexOf, DecimalValue;
    var text := Zeros(64 - 2 * n) + low + ":" + dec + ":";
    assert text[..64] == Zeros(64 - 2 * n) + low && text[65..|text| - 1] == dec;
  }

  lemma OneByte()
    ensures IsHexOf(Zeros(62) + "ab", 0xab) && IsDecimalOf("1", 1)
  {
    assert Pow256(0) == 1 && Pow256(1) == 256;
    assert ByteOf(0xab, 0) == 0xab;
    SmallHex("ab", 0xab, 1);
    assert "1"[..0] == "";
  }

  lemma ThreeBytes()
    ensures IsHexOf(Zeros(58) + "c0ffee", 0xc0ffee) && IsDecimalOf("20", 20)
  {
    hide IsHexOf;
    assert Pow256(0) == 1 && Pow256(1) == 256 && Pow256(2) == 65536 && Pow256(3) == 16777216;
    assert ByteOf(0xc0ffee, 0) == 0xee && ByteOf(0xc0ffee, 1) == 0xff && ByteOf(0xc0ffee, 2) == 0xc0;
    SmallHex("c0ffee", 0xc0ffee, 3);
    assert "20"[..1] == "2" && "2"[..0] == "";
  }

  lemma TwoEntries()
    ensures StatusText([TxData(1, 0xab), TxData(20, 0xc0ffee)])
            == (Zeros(62) + "ab" + ":" + "1" + ":") + (Zeros(58) + "c0ffee" + ":" + "20" + ":")
  {
    hide IsEntryText, StatusText, IsHexOf, IsDecimalOf;
    OneByte();
    ThreeBytes();
    SmallEntry("ab", 1, "1", TxData(1, 0xab));
    SmallEntry("c0ffee", 3, "20", TxData(20, 0xc0ffee));
    TwoTexts(Zeros(62) + "ab" + ":" + "1" + ":", Zeros(58) + "c0ffee" + ":" + "20" + ":", TxData(1, 0xab), TxData(20, 0xc0ffee));
  }

  lemma TwoTexts(first: string, second: string, a: TxData, b: TxData)
    requires IsEntryText(first, a) && IsEntryText(second, b)
    ensures StatusText([a, b]) == first + second
  {
    hide IsEntryText, StatusText;
    assert second[..|second|] == second && second[|second|..] == "" && [a, b][1..] == [b] && [b][1..] == [];
    assert IsStatusText("", []);
    assert IsStatusText(second, [b]);
    assert (first + second)[..|first|] == first && (first + second)[|first|..] == second;
    StatusTextIff(first + second, [a, b]);
  }

  // A history with the bytes of every txid reversed.
  function Flipped(hist: seq<TxData>): (r: seq<TxData>)
    ensures |r| == |hist| && forall i :: 0 <= i < |r| ==> r[i] == TxData(hist[i].height, Flip(hist[i].txid))
  {
    seq(|hist|, i requires 0 <= i < |hist| => TxData(hist[i].height, Flip(hist[i].txid)))
  }

  // shStatus: the append loop builds exactly the text above, and leaves the txids of the caller's
  // slice reversed.
  method ShStatus(sha: string -> Hash, txs: array<TxData>) returns (status: Option<Hash>)
    modifies txs
    ensures status == Status(sha, old(txs[..]))
    ensures txs.Length == 0 ==> status == None
    ensures txs.Length > 0 ==> exists text :: IsStatusText(text, old(txs[..])) && status == Some(sha(text))
    ensures txs[..] == Flipped(old(txs[..]))
  {
    hide HashBytes, HashFrom, Flip, Hex, Reverse, Decimal, IsStatusText;
    ghost var hist := txs[..];
    StatusHasLayout(hist);
    if txs.Length == 0 {
      return None;
    }
    var buf: string := "";
    var i := 0;
    while i < txs.Length
      invariant 0 <= i <= txs.Length
      invariant forall k :: 0 <= k < i ==> txs[k] == Flipped(hist)[k]
      invariant forall k :: i <= k < txs.Length ==> txs[k] == hist[k]
      invariant buf + StatusText(hist[i..]) == StatusText(hist)
    {
      HashBytesOfFlip(hist[i].txid);
      txs[i] := TxData(txs[i].height, Flip(txs[i].txid));
      var entry := Hex(HashBytes(txs[i].txid)) + ":" + Decimal(txs[i].height) + ":";
      assert entry == EntryText(hist[i]);
      assert hist[i..][1..] == hist[i + 1..];
      ghost var rest := StatusText(hist[i + 1..]);
      assert buf + (entry + rest) == buf + entry + rest;
      buf := buf + entry;
      i := i + 1;
    }
    assert buf + "" == buf;
    return Some(sha(buf));
  }

  // So a second call on the same slice hashes another text, unless every txid is a palindrome; it
  // leaves the slice as it was before the first.
  lemma SecondCallDiffers(hist: seq<TxData>)
    ensures StatusText(Flipped(hist)) == StatusText(hist) <==> forall i :: 0 <= i < |hist| ==> Flip(hist[i].txid) == hist[i].txid
    ensures Flipped(Flipped(hist)) == hist
  {
    forall i | 0 <= i < |hist| ensures Flip(Flip(hist[i].txid)) == hist[i].txid {
      HashBytesOfFlip(hist[i].txid);
    }
    if StatusText(Flipped(hist)) == StatusText(hist) {
      StatusTextInjective(Flipped(hist), hist);
    }
    if forall i :: 0 <= i < |hist| ==> Flip(hist[i].txid) == hist[i].txid {
      assert Flipped(hist) == hist;
    }
  }

  // Two statuses agree exactly when the histories do, unless SHA-256 collides on their two texts.
  lemma StatusSeparatesHistories(sha: string -> Hash, a: seq<TxData>, b: seq<TxData>)
    requires StatusText(a) != StatusText(b) ==> sha(StatusText(a)) != sha(StatusText(b))
    ensures Status(sha, a) == Status(sha, b) <==> a == b
  {
    if StatusText(a) == StatusText(b) {
      StatusTextInjective(a, b);
    }
  }
}
