// Identifiers, rows and blocks shared by every module, and the functions of the outside world
// (hashing, key derivation, block download) that the model keeps uninterpreted.
module Base {

  newtype byte = x: int | 0 <= x < 256

  const TWO_256: nat := 0x1_0000000000000000_0000000000000000_0000000000000000_0000000000000000
  const TWO_64: nat := 0x1_0000_0000_0000_0000
  const TWO_32: nat := 0x1_0000_0000

  // A [32]byte value, read as the 256-bit number whose little-endian bytes it holds.
  type Hash = h: nat | h < TWO_256 witness 0

  datatype Option<+T> = None | Some(value: T)

  datatype OutPoint = OutPoint(txid: Hash, vout: nat)

  // An output: its amount and the SHA-256 of its script.
  datatype Utxo = Utxo(satoshi: nat, sh: Hash)

  datatype Tx = Tx(txid: Hash, ins: seq<OutPoint>, outs: seq<Utxo>)

  datatype Block = Block(hash: Hash, prev: Hash, txs: seq<Tx>)

  datatype Account = Receive | Change

  // scriptPubkeyInfo: which wallet, account and index a watched script belongs to.
  datatype Info = Info(walletIdx: nat, account: Account, idx: nat)

  // Uninterpreted world: the Merkle pair hash, the SHA-256 of the script derived for (wallet hash,
  // account, index), and the block behind a block hash.
  datatype Env = Env(
    pairHash: (Hash, Hash) -> Hash,
    derive: (Hash, Account, nat) -> Hash,
    blockOf: Hash -> Block)

  function Min(a: int, b: int): int { if a <= b then a else b }

  function Max(a: int, b: int): int { if a <= b then b else a }

  function Txids(txs: seq<Tx>): (ids: seq<Hash>)
    ensures |ids| == |txs|
    ensures forall i :: 0 <= i < |txs| ==> ids[i] == txs[i].txid
  {
    seq(|txs|, i requires 0 <= i < |txs| => txs[i].txid)
  }
}
