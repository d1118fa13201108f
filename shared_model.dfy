/** Values the transaction processor receives from, and hands to, the rest of
    the node: transactions, batches, proposals, blocks, validation errors and
    transaction statuses. Only the parts the processor reads are kept. */
module SharedModel {

  /** A transaction hash. Its hexadecimal rendering is not modelled. */
  type Hash = seq<bv8>

  /** A transaction as the processor sees it: its hash, the number of
      signatures it carries and the quorum its creator account demands. */
  datatype Transaction = Transaction(hash: Hash, signatureCount: nat, quorum: nat)

  /** A batch of transactions. Whether the batch carries all signatures it
      needs is decided by the batch itself and is an input here. */
  datatype Batch = Batch(transactions: seq<Transaction>, hasAllSignatures: bool)

  /** A sequence of batches submitted together by a client. */
  datatype TransactionSequence = TransactionSequence(batches: seq<Batch>)

  datatype Proposal = Proposal(transactions: seq<Transaction>)

  datatype Block = Block(transactions: seq<Transaction>)

  /** Why stateful validation rejected a transaction: the failing check or
      command, its error text, whether the transaction passed the initial
      (signature) verification, and the index of the failing command. */
  datatype CommandError = CommandError(name: string, error: string, txPassedInitialValidation: bool, index: nat)

  /** A command error paired with the hash of the rejected transaction. */
  datatype TransactionError = TransactionError(command: CommandError, txHash: Hash)

  /** A proposal after stateful validation: the transactions that passed, and
      one error per transaction that did not. */
  datatype VerifiedProposalAndErrors = VerifiedProposalAndErrors(proposal: Proposal, errors: seq<TransactionError>)

  /** The two message templates for a stateful validation failure, with the
      fields each one fills in; the text itself is not modelled. */
  datatype ErrorMessage =
    | InitialVerificationFailed(txHash: Hash, name: string, error: string)
    | CommandFailed(txHash: Hash, name: string, index: nat, error: string)

  datatype StatusKind =
    | StatelessValidationSuccess
    | StatefulValidationFailed(message: ErrorMessage)
    | StatefulValidationSuccess
    | Committed
    | MstExpired

  /** A transaction status as built for the status bus: a kind and the hash
      of the transaction it is about. */
  datatype Status = Status(kind: StatusKind, txHash: Hash)

  /** The hashes of a list of transactions, in order. */
  function Hashes(txs: seq<Transaction>): (hs: seq<Hash>)
    ensures |hs| == |txs|
  {
    if txs == [] then [] else [txs[0].hash] + Hashes(txs[1..])
  }

  lemma {:induction false} HashesAt(txs: seq<Transaction>, i: nat)
    requires i < |txs|
    ensures Hashes(txs)[i] == txs[i].hash
  {
    if i > 0 {
      HashesAt(txs[1..], i - 1);
    }
  }

  lemma {:induction false} HashesAppend(a: seq<Transaction>, b: seq<Transaction>)
    ensures Hashes(a + b) == Hashes(a) + Hashes(b)
  {
    if a == [] {
      assert a + b == b;
    } else {
      assert (a + b)[0] == a[0];
      assert (a + b)[1..] == a[1..] + b;
      HashesAppend(a[1..], b);
    }
  }

  /** The hashes of the transactions of several blocks, block after block. */
  function BlockHashes(blocks: seq<Block>): (hs: seq<Hash>)
    ensures |hs| == TransactionCount(blocks)
  {
    if blocks == [] then [] else Hashes(blocks[0].transactions) + BlockHashes(blocks[1..])
  }

  function TransactionCount(blocks: seq<Block>): nat
  {
    if blocks == [] then 0 else |blocks[0].transactions| + TransactionCount(blocks[1..])
  }

  lemma {:induction false} BlockHashesAppend(a: seq<Block>, b: seq<Block>)
    ensures BlockHashes(a + b) == BlockHashes(a) + BlockHashes(b)
  {
    if a == [] {
      assert a + b == b;
    } else {
      assert (a + b)[0] == a[0];
      assert (a + b)[1..] == a[1..] + b;
      BlockHashesAppend(a[1..], b);
    }
  }
}
