/** Bytes, digests and the messages that the settlement services exchange. */
module Common {

  newtype byte = x: int | 0 <= x < 256

  /** A 32-byte SHA-256 digest: transaction ids, UHS ids and witness commitments. */
  type Hash = h: seq<byte> | |h| == 32 witness seq(32, _ => 0)

  /** All bytes zero. */
  function NoHash(): Hash { seq(32, _ => 0) }

  const U64_RANGE: nat := 0x1_0000_0000_0000_0000

  type u64 = x: nat | x < U64_RANGE

  datatype Option<+T> = None | Some(value: T)

  /** Unsigned 64-bit subtraction, which wraps below zero. */
  function Sub64(a: nat, b: nat): (r: u64)
    ensures b <= a < U64_RANGE ==> r == a - b
    ensures a < b < U64_RANGE ==> r == U64_RANGE - (b - a)
  {
    (a - b) % U64_RANGE
  }

  function Pow2(k: nat): (p: nat)
    ensures p > 0
  {
    if k == 0 then 1 else 2 * Pow2(k - 1)
  }

  /** Sentinel attestations are carried along but only checked, never interpreted. */
  type PubKey = seq<byte>
  type Signature = seq<byte>

  datatype CompactTx = CompactTx(
    id: Hash,
    inputs: seq<Hash>,
    outputs: seq<Hash>,
    attestations: map<PubKey, Signature>
  )
  {
    predicate Mint() { inputs == [] }

    function InputSet(): set<Hash> { set x | x in inputs }

    function OutputSet(): set<Hash> { set x | x in outputs }
  }

  datatype Block = Block(height: nat, txs: seq<CompactTx>)

  /** Why a transaction was turned away; reported to the watchtower. */
  datatype ErrorKind =
    | Sync
    | InputsMissing(missing: seq<Hash>)
    | StxoRange
    | InputsSpent(spent: set<Hash>)
    | Incomplete

  datatype TxError = TxError(id: Hash, kind: ErrorKind)

  predicate Distinct<T(==)>(s: seq<T>) {
    forall i, j | 0 <= i < j < |s| :: s[i] != s[j]
  }

  lemma {:induction false} SubsetSize<T>(a: set<T>, b: set<T>)
    requires a <= b
    ensures |a| <= |b|
  {
    if a != {} {
      var x :| x in a;
      SubsetSize(a - {x}, b - {x});
    }
  }

  /** Every UHS id consumed by a list of transactions. */
  function InputsOf(txs: seq<CompactTx>): set<Hash> {
    set t, x | t in txs && x in t.inputs :: x
  }

  lemma InputsOfAppend(txs: seq<CompactTx>, more: seq<CompactTx>)
    ensures InputsOf(txs + more) == InputsOf(txs) + InputsOf(more)
  {
    forall x
      ensures x in InputsOf(txs + more) <==> x in InputsOf(txs) + InputsOf(more)
    {
      if x in InputsOf(txs) {
        var t :| t in txs && x in t.inputs;
        assert t in txs + more;
      }
      if x in InputsOf(more) {
        var t :| t in more && x in t.inputs;
        assert t in txs + more;
      }
    }
  }
}
