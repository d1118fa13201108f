/** The transaction processor of the client-facing service: it routes
    submitted transactions and batches either to ordering (the peer
    communication service) or to the multi-signature processor, and turns
    the events of ordering, validation, commit and the multi-signature
    processor into transaction statuses on the status bus. Each event
    subscription becomes a handler method called once per event. */
module Torii {
  import opened SharedModel
  import opened Collaborators
  import opened ProcessorRules

  class TransactionProcessor {
    const pcs: PeerCommunicationService
    const mstProcessor: MstProcessor
    const statusBus: StatusBus

    /** Hashes of the transactions of the blocks of the commit in progress. */
    var currentTxsHashes: seq<Hash>

    constructor (pcs: PeerCommunicationService, mstProcessor: MstProcessor, statusBus: StatusBus)
      ensures this.pcs == pcs && this.mstProcessor == mstProcessor && this.statusBus == statusBus
      ensures currentTxsHashes == []
    {
      this.pcs := pcs;
      this.mstProcessor := mstProcessor;
      this.statusBus := statusBus;
      currentTxsHashes := [];
    }

    /** A proposal passed stateless validation: one "stateless validation
        success" status per transaction, in proposal order. */
    method OnProposal(proposal: Proposal)
      modifies statusBus
      ensures statusBus.published == old(statusBus.published) + ProposalStatuses(proposal)
    {
      var txs := proposal.transactions;
      for i := 0 to |txs|
        invariant statusBus.published == old(statusBus.published) + StatusesFor(StatelessValidationSuccess, Hashes(txs[..i]))
      {
        statusBus.Publish(Status(StatelessValidationSuccess, txs[i].hash));
        TransactionStatusesSnoc(StatelessValidationSuccess, txs, i);
      }
      assert txs[..|txs|] == txs;
    }

    /** A proposal passed stateful validation: a failure status with its
        composed message for every error, then a success status for every
        transaction that passed. */
    method OnVerifiedProposal(vp: VerifiedProposalAndErrors)
      modifies statusBus
      ensures statusBus.published == old(statusBus.published) + VerifiedProposalStatuses(vp)
    {
      var errors := vp.errors;
      for i := 0 to |errors|
        invariant statusBus.published == old(statusBus.published) + FailedStatuses(errors[..i])
      {
        var message := ComposeErrorMessage(errors[i]);
        statusBus.Publish(Status(StatefulValidationFailed(message), errors[i].txHash));
        assert errors[..i + 1] == errors[..i] + [errors[i]];
        FailedStatusesAppend(errors[..i], [errors[i]]);
      }
      assert errors[..|errors|] == errors;
      ghost var afterFailures := statusBus.published;
      var txs := vp.proposal.transactions;
      for i := 0 to |txs|
        invariant statusBus.published == afterFailures + StatusesFor(StatefulValidationSuccess, Hashes(txs[..i]))
      {
        statusBus.Publish(Status(StatefulValidationSuccess, txs[i].hash));
        TransactionStatusesSnoc(StatefulValidationSuccess, txs, i);
      }
      assert txs[..|txs|] == txs;
    }

    /** A block of the commit in progress arrived: its transaction hashes are
        appended to the buffer, in block order; nothing is published. */
    method OnCommitBlock(block: Block)
      modifies this
      ensures currentTxsHashes == old(currentTxsHashes) + Hashes(block.transactions)
    {
      var txs := block.transactions;
      for i := 0 to |txs|
        invariant currentTxsHashes == old(currentTxsHashes) + Hashes(txs[..i])
      {
        currentTxsHashes := currentTxsHashes + [txs[i].hash];
        assert txs[..i + 1] == txs[..i] + [txs[i]];
        HashesAppend(txs[..i], [txs[i]]);
        assert Hashes([txs[i]]) == [txs[i].hash];
      }
      assert txs[..|txs|] == txs;
    }

    /** The commit in progress completed: one "committed" status per buffered
        hash, in buffer order (none when the buffer is empty), then the
        buffer is cleared. */
    method OnCommitComplete()
      modifies this, statusBus
      ensures statusBus.published == old(statusBus.published) + CommittedStatuses(old(currentTxsHashes))
      ensures currentTxsHashes == []
    {
      if currentTxsHashes != [] {
        var hashes := currentTxsHashes;
        for i := 0 to |hashes|
          invariant statusBus.published == old(statusBus.published) + StatusesFor(Committed, hashes[..i])
        {
          statusBus.Publish(Status(Committed, hashes[i]));
          assert hashes[..i + 1] == hashes[..i] + [hashes[i]];
          StatusesForAppend(Committed, hashes[..i], [hashes[i]]);
          assert StatusesFor(Committed, [hashes[i]]) == [Status(Committed, hashes[i])];
        }
        assert hashes[..|hashes|] == hashes;
      }
      currentTxsHashes := [];
    }

    /** The multi-signature processor collected enough signatures for a
        transaction: it is propagated to ordering. */
    method OnMstPrepared(tx: Transaction)
      modifies pcs
      ensures pcs.calls == old(pcs.calls) + [TransactionPropagated(tx)]
    {
      pcs.PropagateTransaction(tx);
    }

    /** The multi-signature processor gave up on a transaction: an "MST
        expired" status is published for it. */
    method OnMstExpired(tx: Transaction)
      modifies statusBus
      ensures statusBus.published == old(statusBus.published) + [Status(MstExpired, tx.hash)]
    {
      statusBus.Publish(Status(MstExpired, tx.hash));
    }

    /** A single submitted transaction goes to the multi-signature processor
        while it lacks signatures for its quorum, to ordering otherwise. */
    method TransactionHandle(tx: Transaction)
      modifies pcs, mstProcessor
      ensures pcs.calls == old(pcs.calls) + TransactionDispatch(tx).pcs
      ensures mstProcessor.propagated == old(mstProcessor.propagated) + TransactionDispatch(tx).mst
    {
      if tx.signatureCount < tx.quorum {
        mstProcessor.PropagateTransaction(tx);
        return;
      }
      pcs.PropagateTransaction(tx);
    }

    /** The transactions of a batch without all signatures, handed one by
        one to the multi-signature processor in batch order. */
    method PropagateEachToMst(txs: seq<Transaction>)
      modifies mstProcessor
      ensures mstProcessor.propagated == old(mstProcessor.propagated) + txs
    {
      for j := 0 to |txs|
        invariant mstProcessor.propagated == old(mstProcessor.propagated) + txs[..j]
      {
        mstProcessor.PropagateTransaction(txs[j]);
        assert txs[..j + 1] == txs[..j] + [txs[j]];
      }
      assert txs[..|txs|] == txs;
    }

    /** A submitted sequence of batches, batch by batch: a batch with all
        signatures goes to ordering whole, the transactions of any other
        batch go one by one to the multi-signature processor. */
    method TransactionSequenceHandle(sequence: TransactionSequence)
      modifies pcs, mstProcessor
      ensures pcs.calls == old(pcs.calls) + SequenceDispatch(sequence.batches).pcs
      ensures mstProcessor.propagated == old(mstProcessor.propagated) + SequenceDispatch(sequence.batches).mst
    {
      var batches := sequence.batches;
      for i := 0 to |batches|
        invariant pcs.calls == old(pcs.calls) + SequenceDispatch(batches[..i]).pcs
        invariant mstProcessor.propagated == old(mstProcessor.propagated) + SequenceDispatch(batches[..i]).mst
      {
        SequenceDispatchSnoc(batches, i);
        var batch := batches[i];
        if batch.hasAllSignatures {
          pcs.PropagateBatch(batch);
        } else {
          PropagateEachToMst(batch.transactions);
        }
      }
      assert batches[..|batches|] == batches;
    }
  }

  /** One whole commit delivered to a processor with an empty buffer: every
      block is buffered as it arrives and the completion publishes one
      "committed" status per transaction of the commit, block after block
      and in block order within each block. Returns what the status bus
      received. */
  method CommitStream(blocks: seq<Block>) returns (published: seq<Status>)
    ensures published == CommittedStatuses(BlockHashes(blocks))
    ensures |published| == TransactionCount(blocks)
  {
    var pcs := new PeerCommunicationService();
    var mstProcessor := new MstProcessor();
    var statusBus := new StatusBus();
    var processor := new TransactionProcessor(pcs, mstProcessor, statusBus);
    for k := 0 to |blocks|
      invariant processor.currentTxsHashes == BlockHashes(blocks[..k])
      invariant statusBus.published == []
    {
      processor.OnCommitBlock(blocks[k]);
      assert blocks[..k + 1] == blocks[..k] + [blocks[k]];
      BlockHashesAppend(blocks[..k], [blocks[k]]);
      assert BlockHashes([blocks[k]]) == Hashes(blocks[k].transactions);
    }
    assert blocks[..|blocks|] == blocks;
    processor.OnCommitComplete();
    published := statusBus.published;
  }
}
