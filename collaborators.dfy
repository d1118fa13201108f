/** The three services the transaction processor talks to: the peer
    communication service (ordering and consensus), the multi-signature
    processor and the status bus. Their behaviour is outside this model; each
    one is reduced to the log of calls it receives, in order. */
module Collaborators {
  import opened SharedModel

  /** A call into the peer communication service. */
  datatype PcsCall =
    | TransactionPropagated(tx: Transaction)
    | BatchPropagated(batch: Batch)

  class PeerCommunicationService {
    var calls: seq<PcsCall>

    constructor ()
      ensures calls == []
    {
      calls := [];
    }

    method PropagateTransaction(tx: Transaction)
      modifies this
      ensures calls == old(calls) + [TransactionPropagated(tx)]
    {
      calls := calls + [TransactionPropagated(tx)];
    }

    method PropagateBatch(batch: Batch)
      modifies this
      ensures calls == old(calls) + [BatchPropagated(batch)]
    {
      calls := calls + [BatchPropagated(batch)];
    }
  }

  class MstProcessor {
    /** The transactions handed over to collect more signatures. */
    var propagated: seq<Transaction>

    constructor ()
      ensures propagated == []
    {
      propagated := [];
    }

    method PropagateTransaction(tx: Transaction)
      modifies this
      ensures propagated == old(propagated) + [tx]
    {
      propagated := propagated + [tx];
    }
  }

  class StatusBus {
    var published: seq<Status>

    constructor ()
      ensures published == []
    {
      published := [];
    }

    method Publish(status: Status)
      modifies this
      ensures published == old(published) + [status]
    {
      published := published + [status];
    }
  }
}
