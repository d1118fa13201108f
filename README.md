# Transaction processor of the Iroha client service (Torii), in Dafny

This project models the transaction processor of an Iroha node. The
processor sits between the client-facing service and the rest of the node.
It has two jobs:

- **Routing submissions.** A single transaction goes to the multi-signature
  (MST) processor while it carries fewer signatures than its quorum. Otherwise
  it goes to the peer communication service (PCS), which feeds ordering and
  consensus. In a submitted sequence of batches, a batch that has all its
  signatures goes to the PCS whole. The transactions of any other batch go one
  by one to the MST processor.
- **Reporting statuses.** Events from the PCS and the MST processor become
  transaction statuses on the status bus:
  - a proposal gives stateless-validation success for each transaction;
  - a verified proposal gives one stateful-validation failure per error, each
    with a message from one of two templates, and then one stateful-validation
    success per transaction that passed;
  - the blocks of a commit are buffered by transaction hash, and when the
    commit completes one "committed" status is published per buffered hash;
  - an MST transaction that has become ready is propagated to the PCS;
  - an MST transaction that has expired gets an "MST expired" status.

Layout:

- `shared_model.dfy` (module `SharedModel`) holds the values the processor
  reads: transactions (hash, signature count, quorum), batches, proposals,
  blocks, validation errors, error messages and statuses.
- `collaborators.dfy` (module `Collaborators`) has the PCS, the MST processor
  and the status bus. Each is a class that only records, in order, the calls it
  receives.
- `processor_rules.dfy` (module `ProcessorRules`) states each decision as a
  function of the inputs and proves its properties as lemmas:
  - which error template is chosen;
  - which statuses each event produces, and in what order;
  - where each transaction and batch is dispatched.
- `transaction_processor.dfy` (module `Torii`) has the class
  `TransactionProcessor`:
  - its only field is the buffer of committed hashes, `currentTxsHashes`;
  - it holds references to the three collaborators;
  - it has one method per event subscription, plus `TransactionHandle` and
    `TransactionSequenceHandle`.

  Each method's `ensures` ties the new collaborator logs and the new buffer to
  the functions in `ProcessorRules`. `CommitStream` runs one whole commit
  through a fresh processor.

## Model

| member | source | states |
|---|---|---|
| Torii.TransactionProcessor.constructor | irohad/torii/processor/impl/transaction_processor_impl.cpp:39-46 | The processor keeps the three collaborators it is given and starts with an empty commit buffer. |
| ProcessorRules.ComposeErrorMessage | irohad/torii/processor/impl/transaction_processor_impl.cpp:21-37 | The "did not pass initial verification" template is chosen exactly when the transaction failed initial validation. Otherwise the template with the command index is chosen. Both carry the transaction hash, the name and the error text. |
| ProcessorRules.ComposeErrorMessageInjective | irohad/torii/processor/impl/transaction_processor_impl.cpp:21-37 | Two errors given the same template with the same fields agree on hash, name, error text and initial-validation outcome. They also agree on the command index whenever initial validation passed: only the index of an initial-verification failure is not passed to its template. |
| ProcessorRules.ProposalStatusesSpec | irohad/torii/processor/impl/transaction_processor_impl.cpp:48-59 | A proposal gives exactly one "stateless validation success" status per transaction, in proposal order, and each carries that transaction's hash. |
| Torii.TransactionProcessor.OnProposal | irohad/torii/processor/impl/transaction_processor_impl.cpp:48-60 | The handler appends exactly those statuses to the status bus and touches nothing else. |
| ProcessorRules.VerifiedProposalStatusesSpec | irohad/torii/processor/impl/transaction_processor_impl.cpp:67-89 | A verified proposal first gives one "stateful validation failed" status per error, in error order, with the composed message and the error's hash. Then it gives one "stateful validation success" status per proposal transaction, in proposal order. No success status comes before a failure status. |
| Torii.TransactionProcessor.OnVerifiedProposal | irohad/torii/processor/impl/transaction_processor_impl.cpp:63-90 | The handler appends exactly those statuses to the status bus, with failures before successes. |
| Torii.TransactionProcessor.OnCommitBlock | irohad/torii/processor/impl/transaction_processor_impl.cpp:96-102 | A block of a commit appends exactly its transaction hashes to the buffer, in block order. Nothing is published, because the frame excludes the status bus. |
| Torii.TransactionProcessor.OnCommitComplete | irohad/torii/processor/impl/transaction_processor_impl.cpp:104-119 | On completion, one "committed" status is published per buffered hash, in buffer order. Afterwards the buffer is empty. |
| ProcessorRules.CommittedStatusesSpec | irohad/torii/processor/impl/transaction_processor_impl.cpp:105-117 | One status per buffered hash, so none for an empty buffer. The i-th published status is "committed" for the i-th buffered hash. |
| SharedModel.BlockHashesAppend | irohad/torii/processor/impl/transaction_processor_impl.cpp:96-101 | Buffering the blocks of a commit one after another gives the hashes of earlier blocks before those of later ones. |
| Torii.CommitStream | irohad/torii/processor/impl/transaction_processor_impl.cpp:93-120 | Start with a fresh processor, deliver every block of a commit, then complete the commit. The status bus then holds exactly the "committed" statuses of the buffered hashes of all blocks, block after block and in block order within each block: one per transaction of the commit. |
| Torii.TransactionProcessor.OnMstPrepared | irohad/torii/processor/impl/transaction_processor_impl.cpp:122-125 | A transaction the MST processor reports as prepared is propagated to the PCS exactly once. |
| Torii.TransactionProcessor.OnMstExpired | irohad/torii/processor/impl/transaction_processor_impl.cpp:126-135 | A transaction the MST processor reports as expired gets exactly one "MST expired" status carrying its hash. |
| ProcessorRules.TransactionDispatch | irohad/torii/processor/impl/transaction_processor_impl.cpp:142-149 | Exactly one collaborator receives the transaction, exactly once. The MST processor gets it if and only if its signature count is below its quorum. The PCS gets it if and only if its signature count is at least its quorum. |
| Torii.TransactionProcessor.TransactionHandle | irohad/torii/processor/impl/transaction_processor_impl.cpp:138-150 | The handler appends exactly that dispatch to the PCS and MST logs. It does not change the processor itself, as the C++ method is `const`. |
| ProcessorRules.SequenceDispatchAppend | irohad/torii/processor/impl/transaction_processor_impl.cpp:155-165 | Batches are handled in order and independently: the dispatch of a concatenation of batch lists is the first list's dispatch followed by the second's. |
| ProcessorRules.SequenceDispatchRouting | irohad/torii/processor/impl/transaction_processor_impl.cpp:155-165 | As sets: the PCS receives only whole batches, and exactly the batches that have all signatures. It never receives a batch without all signatures, nor a single transaction. The MST processor receives exactly the transactions of the batches without all signatures. |
| ProcessorRules.SequenceDispatchCounts | irohad/torii/processor/impl/transaction_processor_impl.cpp:155-165 | Each batch is handled exactly once. A batch with all signatures reaches the PCS as many times as it occurs in the sequence, and any other batch never does. The MST processor receives exactly as many transactions as the batches without all signatures hold. |
| Torii.TransactionProcessor.PropagateEachToMst | irohad/torii/processor/impl/transaction_processor_impl.cpp:161-163 | The transactions of an incomplete batch reach the MST processor one by one, in batch order. |
| Torii.TransactionProcessor.TransactionSequenceHandle | irohad/torii/processor/impl/transaction_processor_impl.cpp:152-166 | The handler appends exactly the dispatch of the sequence's batches to the PCS and MST logs. It does not change the processor itself. |

## Left out

- Event wiring: the reactive subscriptions and the `notifier_mutex_` lock are not modelled. Each subscription is a handler method that the caller invokes once per event. The events of one commit arrive as a call for each block and then one completion call. Concurrent delivery is not modelled.
- Logging is not modelled, and neither is the `reserve` capacity hint in the commit handler.
- Error message text: the exact `boost::format` strings and the hexadecimal rendering of hashes are not modelled. A message is the template choice plus the fields it carries (`ErrorMessage`). The rendered text can merge the name and error fields: a name and error whose text contains the template's own separators can render the same as another pair. So the injectivity in `ComposeErrorMessageInjective` holds for the template's arguments only, not for the rendered string.
- Foreign collaborators: the bodies of the PCS, the MST processor, the status bus and the status builder are not modelled. Each collaborator is reduced to an append-only log of the calls it receives.
- Opaque inputs: `hasAllSignatures`, the signature count and the quorum come in as fields of `Batch` and `Transaction`. How a batch decides it has all signatures is not modelled.
- `Torii.TransactionProcessor.constructor` takes the collaborators as arguments. It does not subscribe to anything, because subscriptions are replaced by handler methods.
- irohad/synchronizer/impl/synchronizer_impl.hpp is not part of this model. It only declares the synchronizer, and that synchronizer's storage, block download and chain validation are I/O.
- shared_model/backend/protobuf/commands/proto_remove_signatory.hpp is not part of this model. It is a protobuf accessor wrapper with no logic.
- The pending multi-signature pool (`MstState`: insert, merge, difference, expiry) is a separate component and is not part of this model. The processor reaches it only through the MST processor's `propagateTransaction` and its prepared and expired events.
