/**
  The values the transaction handler works on: unspent-output references,
  outputs, inputs, transactions and the unspent-output pool. The classes
  that define them in the original repository are not part of this model,
  so each is given here as a plain value type.
 */
module LedgerTypes {

  /** Raw bytes: hashes, public keys and signatures. */
  type Bytes = seq<bv8>

  /** A public key; it owns an output and checks signatures on claims against it. */
  type Address = Bytes

  /** Reference to one output of an earlier transaction: `(prevTxHash, outputIndex)`. */
  datatype UTXO = UTXO(prevTxHash: Bytes, outputIndex: int)

  /** A transaction output: an amount and the key allowed to spend it. */
  datatype Output = Output(value: int, address: Address)

  /** A claim on an earlier output, with the signature that authorises it. */
  datatype Input = Input(prevTxHash: Bytes, outputIndex: int, signature: Bytes)

  /** A transaction: its hash, the outputs it claims and the outputs it creates. */
  datatype Transaction = Transaction(hash: Bytes, inputs: seq<Input>, outputs: seq<Output>)

  /** The unspent-output pool: every output that exists and has not been claimed. */
  type Pool = map<UTXO, Output>

  /**
    The two foreign collaborators of validation: the signature scheme
    (`address.verifySignature(message, signature)`) and the canonical
    message signed for input `i` (`tx.getRawDataToSign(i)`). Both are
    left unconstrained: every property below holds whatever they compute.
   */
  datatype Crypto = Crypto(
    verifySignature: (Address, Bytes, Bytes) -> bool,
    rawDataToSign: (Transaction, nat) -> Bytes)

  /** The pool key an input claims. */
  function Claimed(input: Input): UTXO
  {
    UTXO(input.prevTxHash, input.outputIndex)
  }
}
