/** The decisions of the transaction processor as functions of its inputs:
    which error template a rejected transaction gets, which statuses each
    event publishes and in what order, and where each submitted transaction
    or batch is sent. The handler methods of the processor are proved to
    produce exactly these. */
module ProcessorRules {
  import opened SharedModel
  import opened Collaborators

  /** The message for a transaction that failed stateful validation: the
      "did not pass initial verification" template when the transaction
      failed the initial check, the template naming the failing command and
      its index otherwise. Both carry the transaction hash, the check or
      command name and the error text. */
  function ComposeErrorMessage(e: TransactionError): (m: ErrorMessage)
    ensures m.InitialVerificationFailed? <==> !e.command.txPassedInitialValidation
    ensures m.CommandFailed? <==> e.command.txPassedInitialValidation
    ensures m.txHash == e.txHash && m.name == e.command.name && m.error == e.command.error
    ensures m.CommandFailed? ==> m.index == e.command.index
  {
    if !e.command.txPassedInitialValidation then
      InitialVerificationFailed(e.txHash, e.command.name, e.command.error)
    else
      CommandFailed(e.txHash, e.command.name, e.command.index, e.command.error)
  }

  /** Two errors given the same template with the same fields agree on the
      hash, name and error text and on whether initial verification passed,
      and also on the command index when it did pass: only the index of an
      initial-verification failure is not passed to its template. */
  lemma ComposeErrorMessageInjective(e1: TransactionError, e2: TransactionError)
    requires ComposeErrorMessage(e1) == ComposeErrorMessage(e2)
    ensures e1.txHash == e2.txHash && e1.command.name == e2.command.name && e1.command.error == e2.command.error
    ensures e1.command.txPassedInitialValidation == e2.command.txPassedInitialValidation
    ensures e1.command.txPassedInitialValidation ==> e1.command.index == e2.command.index
  {
  }

  // ---------------------------------------------------------------------
  // Statuses

  /** One status of the given kind per hash, in the order of the hashes. */
  function StatusesFor(kind: StatusKind, hashes: seq<Hash>): (r: seq<Status>)
    ensures |r| == |hashes|
  {
    if hashes == [] then [] else [Status(kind, hashes[0])] + StatusesFor(kind, hashes[1..])
  }

  lemma {:induction false} StatusesForAt(kind: StatusKind, hashes: seq<Hash>, i: nat)
    requires i < |hashes|
    ensures StatusesFor(kind, hashes)[i] == Status(kind, hashes[i])
  {
    if i > 0 {
      StatusesForAt(kind, hashes[1..], i - 1);
    }
  }

  lemma {:induction false} StatusesForAppend(kind: StatusKind, a: seq<Hash>, b: seq<Hash>)
    ensures StatusesFor(kind, a + b) == StatusesFor(kind, a) + StatusesFor(kind, b)
  {
    if a == [] {
      assert a + b == b;
    } else {
      assert (a + b)[0] == a[0];
      assert (a + b)[1..] == a[1..] + b;
      StatusesForAppend(kind, a[1..], b);
    }
  }

  /** Publishing one more transaction's status extends the statuses of a
      prefix of transactions by exactly that status. */
  lemma TransactionStatusesSnoc(kind: StatusKind, txs: seq<Transaction>, i: nat)
    requires i < |txs|
    ensures StatusesFor(kind, Hashes(txs[..i + 1])) == StatusesFor(kind, Hashes(txs[..i])) + [Status(kind, txs[i].hash)]
  {
    assert txs[..i + 1] == txs[..i] + [txs[i]];
    HashesAppend(txs[..i], [txs[i]]);
    assert Hashes([txs[i]]) == [txs[i].hash];
    StatusesForAppend(kind, Hashes(txs[..i]), [txs[i].hash]);
    assert StatusesFor(kind, [txs[i].hash]) == [Status(kind, txs[i].hash)];
  }

  /** The statuses published for a proposal: stateless validation success for
      each of its transactions. */
  function ProposalStatuses(proposal: Proposal): seq<Status>
  {
    StatusesFor(StatelessValidationSuccess, Hashes(proposal.transactions))
  }

  /** Exactly one "stateless validation success" status per proposal
      transaction, in proposal order, each carrying that transaction's hash. */
  lemma ProposalStatusesSpec(proposal: Proposal)
    ensures |ProposalStatuses(proposal)| == |proposal.transactions|
    ensures forall i :: 0 <= i < |proposal.transactions| ==>
      ProposalStatuses(proposal)[i] == Status(StatelessValidationSuccess, proposal.transactions[i].hash)
  {
    var txs := proposal.transactions;
    forall i | 0 <= i < |txs|
      ensures ProposalStatuses(proposal)[i] == Status(StatelessValidationSuccess, txs[i].hash)
    {
      HashesAt(txs, i);
      StatusesForAt(StatelessValidationSuccess, Hashes(txs), i);
    }
  }

  /** One "stateful validation failed" status per error, in error order,
      carrying the composed message. */
  function FailedStatuses(errors: seq<TransactionError>): (r: seq<Status>)
    ensures |r| == |errors|
  {
    if errors == [] then []
    else [Status(StatefulValidationFailed(ComposeErrorMessage(errors[0])), errors[0].txHash)] + FailedStatuses(errors[1..])
  }

  lemma {:induction false} FailedStatusesAt(errors: seq<TransactionError>, i: nat)
    requires i < |errors|
    ensures FailedStatuses(errors)[i] == Status(StatefulValidationFailed(ComposeErrorMessage(errors[i])), errors[i].txHash)
  {
    if i > 0 {
      FailedStatusesAt(errors[1..], i - 1);
    }
  }

  lemma {:induction false} FailedStatusesAppend(a: seq<TransactionError>, b: seq<TransactionError>)
    ensures FailedStatuses(a + b) == FailedStatuses(a) + FailedStatuses(b)
  {
    if a == [] {
      assert a + b == b;
    } else {
      assert (a + b)[0] == a[0];
      assert (a + b)[1..] == a[1..] + b;
      FailedStatusesAppend(a[1..], b);
    }
  }

  /** The statuses published for a verified proposal: the failures first,
      then the successes. */
  function VerifiedProposalStatuses(vp: VerifiedProposalAndErrors): seq<Status>
  {
    FailedStatuses(vp.errors) + StatusesFor(StatefulValidationSuccess, Hashes(vp.proposal.transactions))
  }

  /** For a verified proposal, one "stateful validation failed" status per
      error in error order, followed by one "stateful validation success"
      status per proposal transaction in proposal order; no success status
      precedes a failure status. */
  lemma VerifiedProposalStatusesSpec(vp: VerifiedProposalAndErrors)
    ensures |VerifiedProposalStatuses(vp)| == |vp.errors| + |vp.proposal.transactions|
    ensures forall i :: 0 <= i < |vp.errors| ==>
      VerifiedProposalStatuses(vp)[i]
        == Status(StatefulValidationFailed(ComposeErrorMessage(vp.errors[i])), vp.errors[i].txHash)
    ensures forall i :: 0 <= i < |vp.proposal.transactions| ==>
      VerifiedProposalStatuses(vp)[|vp.errors| + i]
        == Status(StatefulValidationSuccess, vp.proposal.transactions[i].hash)
    ensures forall i, j :: 0 <= i < j < |VerifiedProposalStatuses(vp)| ==>
      !(VerifiedProposalStatuses(vp)[i].kind.StatefulValidationSuccess?
        && VerifiedProposalStatuses(vp)[j].kind.StatefulValidationFailed?)
  {
    var errors, txs := vp.errors, vp.proposal.transactions;
    var r := VerifiedProposalStatuses(vp);
    forall i | 0 <= i < |errors|
      ensures r[i] == Status(StatefulValidationFailed(ComposeErrorMessage(errors[i])), errors[i].txHash)
    {
      FailedStatusesAt(errors, i);
    }
    forall i | 0 <= i < |txs|
      ensures r[|errors| + i] == Status(StatefulValidationSuccess, txs[i].hash)
    {
      HashesAt(txs, i);
      StatusesForAt(StatefulValidationSuccess, Hashes(txs), i);
    }
    forall i, j | 0 <= i < j < |r|
      ensures !(r[i].kind.StatefulValidationSuccess? && r[j].kind.StatefulValidationFailed?)
    {
      if i >= |errors| {
        assert r[j] == Status(StatefulValidationSuccess, txs[j - |errors|].hash);
      }
    }
  }

  /** The statuses published when a commit completes: one "committed" status
      per buffered hash, in buffer order. */
  function CommittedStatuses(hashes: seq<Hash>): seq<Status>
  {
    StatusesFor(Committed, hashes)
  }

  /** One status per buffered hash (so none for an empty buffer): the i-th
      published status is "committed" for the i-th buffered hash. */
  lemma CommittedStatusesSpec(hashes: seq<Hash>)
    ensures |CommittedStatuses(hashes)| == |hashes|
    ensures forall i :: 0 <= i < |hashes| ==> CommittedStatuses(hashes)[i] == Status(Committed, hashes[i])
  {
    forall i | 0 <= i < |hashes|
      ensures CommittedStatuses(hashes)[i] == Status(Committed, hashes[i])
    {
      StatusesForAt(Committed, hashes, i);
    }
  }

  // ---------------------------------------------------------------------
  // Routing of submitted transactions and batches

  /** What a submission hands to the peer communication service and to the
      multi-signature processor, each in call order. */
  datatype Dispatch = Dispatch(pcs: seq<PcsCall>, mst: seq<Transaction>)
  {
    /** This dispatch followed by `next`. */
    function Then(next: Dispatch): Dispatch
    {
      Dispatch(pcs + next.pcs, mst + next.mst)
    }
  }

  const Nothing := Dispatch([], [])

  /** A single transaction goes to the multi-signature processor while it has
      fewer signatures than its quorum, and to the peer communication service
      otherwise: exactly one collaborator receives it, exactly once. */
  function TransactionDispatch(tx: Transaction): (d: Dispatch)
    ensures |d.pcs| + |d.mst| == 1
    ensures d.mst == [tx] <==> tx.signatureCount < tx.quorum
    ensures d.pcs == [TransactionPropagated(tx)] <==> tx.signatureCount >= tx.quorum
  {
    if tx.signatureCount < tx.quorum then Dispatch([], [tx]) else Dispatch([TransactionPropagated(tx)], [])
  }

  /** A batch with all signatures goes to the peer communication service as
      one batch; any other batch goes transaction by transaction to the
      multi-signature processor. */
  function BatchDispatch(batch: Batch): Dispatch
  {
    if batch.hasAllSignatures then Dispatch([BatchPropagated(batch)], []) else Dispatch([], batch.transactions)
  }

  /** The batches of a sequence, each dispatched in turn. */
  function SequenceDispatch(batches: seq<Batch>): Dispatch
  {
    if batches == [] then Nothing else BatchDispatch(batches[0]).Then(SequenceDispatch(batches[1..]))
  }

  /** Batches are handled independently and in order: the dispatch of a
      concatenation is the dispatch of the first part followed by that of
      the second. */
  lemma {:induction false} SequenceDispatchAppend(a: seq<Batch>, b: seq<Batch>)
    ensures SequenceDispatch(a + b) == SequenceDispatch(a).Then(SequenceDispatch(b))
  {
    if a == [] {
      assert a + b == b;
    } else {
      assert (a + b)[1..] == a[1..] + b;
      SequenceDispatchAppend(a[1..], b);
    }
  }

  /** Handling one more batch extends the dispatch of a prefix by exactly
      that batch's dispatch. */
  lemma SequenceDispatchSnoc(batches: seq<Batch>, i: nat)
    requires i < |batches|
    ensures SequenceDispatch(batches[..i + 1]) == SequenceDispatch(batches[..i]).Then(BatchDispatch(batches[i]))
  {
    assert batches[..i + 1] == batches[..i] + [batches[i]];
    SequenceDispatchAppend(batches[..i], [batches[i]]);
    assert SequenceDispatch([batches[i]]) == BatchDispatch(batches[i]).Then(Nothing);
  }

  /** What reaches each collaborator from a transaction sequence: the peer
      communication service receives only whole batches, exactly the ones
      with all signatures; the multi-signature processor receives exactly the
      transactions of the batches without all signatures. */
  lemma {:induction false} SequenceDispatchRouting(batches: seq<Batch>)
    ensures forall c :: c in SequenceDispatch(batches).pcs ==>
      c.BatchPropagated? && c.batch in batches && c.batch.hasAllSignatures
    ensures forall b :: b in batches && b.hasAllSignatures ==> BatchPropagated(b) in SequenceDispatch(batches).pcs
    ensures forall tx :: tx in SequenceDispatch(batches).mst ==>
      exists b :: b in batches && !b.hasAllSignatures && tx in b.transactions
    ensures forall b, tx :: b in batches && !b.hasAllSignatures && tx in b.transactions ==>
      tx in SequenceDispatch(batches).mst
  {
    if batches != [] {
      SequenceDispatchRouting(batches[1..]);
      var rest := batches[1..];
      assert batches == [batches[0]] + rest;
      forall tx | tx in SequenceDispatch(batches).mst
        ensures exists b :: b in batches && !b.hasAllSignatures && tx in b.transactions
      {
        if tx in BatchDispatch(batches[0]).mst {
          assert batches[0] in batches;
        } else {
          var b :| b in rest && !b.hasAllSignatures && tx in b.transactions;
          assert b in batches;
        }
      }
    }
  }

  /** The number of transactions in the batches without all signatures. */
  function IncompleteTransactionCount(batches: seq<Batch>): nat
  {
    if batches == [] then 0
    else (if batches[0].hasAllSignatures then 0 else |batches[0].transactions|) + IncompleteTransactionCount(batches[1..])
  }

  /** Each batch is handled exactly once: every batch with all signatures is
      propagated to the peer communication service as many times as it
      occurs in the sequence, and any other batch never; the
      multi-signature processor receives exactly as many transactions as the
      batches without all signatures hold. */
  lemma {:induction false} SequenceDispatchCounts(batches: seq<Batch>)
    ensures forall b ::
      multiset(SequenceDispatch(batches).pcs)[BatchPropagated(b)] == (if b.hasAllSignatures then multiset(batches)[b] else 0)
    ensures |SequenceDispatch(batches).mst| == IncompleteTransactionCount(batches)
  {
    if batches != [] {
      SequenceDispatchCounts(batches[1..]);
      assert batches == [batches[0]] + batches[1..];
    }
  }
}
