# A verified model of the payment service

This project models the part of the service where money and shared state meet, and proves what it is
supposed to keep. The service answers Lightning Address and invoice requests, swaps Lightning and
Bitcoin payments into Liquid through Boltz, claims the swaps, and keeps a ledger of what every invoice
has received.

- **Invoice ledger** (`InvoiceLedger`, `InvoiceLedgerProofs`, `InvoiceColumns`, `InvoiceStability`, `InvoiceStore`).
  Payment evidence from three rails arrives in any order, repeatedly, and twice over for a Boltz claim
  that the chain watcher also sees as a direct payment. The status and the cached amounts are recomputed
  at each insert.
- **Swap rows and the claim protocol** (`Swaps`, `SwapProofs`, `SwapColumns`, `SwapStore`, `ClaimProtocol`,
  `ClaimProofs`, `ClaimColumns`, `ClaimCompletes`, `ClaimLedgers`, `ServerLocks`). Webhook workers, a sweep
  and a reconciler race on swap rows; a claim transaction is persisted before it is broadcast outside the
  lock, and a worker may crash anywhere. `ClaimLedgers` shows that each invoice of the protocol is a run of the invoice ledger.
- **Limiters** (`SlidingWindow`, `TokenBucket`).
- **Address cursors** (`AddressCursor`, `GapScan`).
- **Text formats** (`Split`, `AuthMessage`, `Bip21`), **Electrum failover** (`Failover`) and the
  **registration tables** (`Registration`, `RegistrationProofs`, `RegistrationColumns`). `Base` holds
  `Option` and set facts, `Chain` the network of transactions, scripts and derived addresses.

How the source is represented:

- A row or object the source updates in place is a class (`InvoiceRow`, `SwapRecord`, `InMemorySliding`,
  `Bucket`, `DonationPage`, `NymRow`, `ElectrumClient`, `Registry`); each method is proved equal to a
  function on values, and the properties are proved of runs of those functions.
- One guarded `UPDATE` or one row-locked transaction is one atomic step. A transaction that is not
  atomic in effect (a claim, an address allocation, a purge, a descriptor write, a reservation, a sweep of
  stale partial payments) is several steps, and other steps run in between. Locks are held-by fields; a
  crash drops the lock and what was not committed. Under READ COMMITTED an `UPDATE` checks its own `WHERE`
  again on a row that changed meanwhile, but nothing it took from a snapshot.
- What the program cannot decide is carried by the step: what `construct_claim` returns, whether the
  network accepts a transaction, what a probe reports, the clock, `random()`, what Electrum answers.
- Addresses derived by a descriptor are injective in (descriptor, index). A txid is the transaction it
  names, and an event key is a datatype value, as injective as the source's formatted strings.
- Times are instants of a single clock. Integers are unbounded except where the source's width matters:
  the `i32` cursors, the `u32` window of the gap scan, the `u64` timestamp, the `u32` second count.
- Strings in the text formats are their UTF-8 bytes.

## What turned out not to hold

Each of these has a lemma that says exactly when the property does hold.

- **The batch sweep of stale partial payments overwrites invoices paid meanwhile.** Its conditions are in
  a CTE and its `UPDATE` checks the id alone (`src/db/invoices.rs:942-975`, called at `src/gc.rs:70`), so a
  checkout paid in full between the two becomes `underpaid` with the whole amount received (`PaidSwept`).
  What the ledger says of money holds all the same (`LedgerInvariant`). The status says how the sum compares
  with the amount exactly when no batch write finds the amount covered (`ExplainedThroughoutIff`,
  `CoveredButUnderpaidIff`), and on one rail statuses move only forward exactly when none finds the invoice
  `paid` or `overpaid` (`SingleRailStability`). The sweep of one invoice checks its columns again, so it is
  never that write.
- **`paid` is not stable across rails.** The tolerance is the last event's rail's. `PaidLastsIff`: on
  runs that prune nothing, payments leave `paid` alone exactly when the effective tolerances differ by at
  most one sat, and with batch sweeps it lasts exactly when besides the invoice is no checkout or one sat
  pays it.
- **A prune loses `paid` whatever the tolerances.** A direct payment in full gives way to a Boltz
  settlement of one sat in the same transaction (`PruneLeavesOne`). `PaidAlwaysLastsIff`: over all runs
  `paid` lasts exactly for invoices of one sat, and of two sat when both Boltz rails, and for a checkout
  the Liquid rail too, forgive one.
- **The 120 s claim lease can be cut short** by anyone who makes the row due: a nudge that finds it other
  than `claiming`, as after a lockup webhook, or makes it so, as an advance does that was decided on an
  older read; a recorded failure with a short backoff; a nudge or lease whose transaction began before the
  claim's. `LeasePreserved` says that the sweep may select the row inside the window exactly after one of
  these, and `LeaseLost` gives the two nudging runs. A reconciler alone loses it only by an advance
  (`LeaseStepIff`, `ReconcilerKeepsLease`), which only a read of a `pending` or `lockup_mempool` row decides
  (`AdvanceOnlyFromStaleRead`).
- **The lease runs from the start of the claim's transaction, not from its commit.** `NOW()` at
  `src/claimer.rs:948` is the time the transaction opened, before the claim was constructed over the network.
  `LeaseFromBegin`: of the 120 s the construction's time is gone at the commit, and a construction of
  120 s leaves nothing.
- **A swap row that has ended is not frozen.** The persist of a claim transaction (`src/claimer.rs:927-929`,
  `src/claimer.rs:1222-1224`), the address write (`src/claimer.rs:639`, `src/claimer.rs:694`) and the
  clearing of retry bookkeeping do not look at the status. `EndedWriteIff` and `TerminalRowsFrozen`:
  status, attempts and refusal flag stay, and the row stays as it is exactly when none of these finds
  something to fill or clear. `EndedRowGainsClaim` is the run in which a swap ends between a claimer's
  read and its writes.
- **A sliding window forgets on a young clock.** `checked_sub` falls back to `now` in a check while the
  clock is younger than the window (`YoungClockIff`), and in a sweep while it is younger than `max_age`,
  7200 s at `src/main.rs:249`, even when it is older than every window (`SweepForgetsIff`;
  `SweepForgetsRun` allows a request above the limit). `RemembersIff`: no request inside its window is
  missing exactly when no operation of the run meets its guard; otherwise some checks at that instant are
  answered wrongly (`ForgettingTells`).
- **A token bucket left alone for exactly 2^32 seconds gets nothing**, and in general for its whole seconds
  modulo 2^32: the elapsed seconds are cast to `u32` (`RefillIff`, `WrappedIdle`, `src/rate_limit.rs:751`).
- **The last index wraps the gap-scan cursor** below zero. A poll that lists the nym afterwards skips it;
  one that had listed it before still moves the cursor on from the payment it sees (`AdvanceForwardIff`).
- **A stale Electrum connection costs its own server's turn.** The comment in `src/utxo.rs:295-296` says
  every server gets one shot; `StaleConnection` says exactly when a call that starts on a stale connection
  succeeds.
- **A cached reservation can outlive its descriptor.** The comment in `src/db/reservations.rs:60` says
  concurrent callers see consistent state, but a descriptor update between the read and the insert leaves
  a row of the old descriptor (`InterruptedReservation`), and so does a whole reservation between the
  update's delete and its commit (`ReservationInTheGap`). `ReservationCurrentIff` says exactly when a row
  is current.
- **An owner cannot return to an older nym.** The comments in `src/registration.rs:202-205` and
  `src/db/users.rs:312-314` say the original owner can register a nym again, and the one in
  `src/error.rs:465-470` that a taken nym is unreachable from there. Only the newest inactive row is looked
  at, so a key that has had another nym since gets an error (`ReturnIff`, and the run `OlderNymLost`);
  after a deactivation or purge with nothing in between it always returns (`OwnerCanReturn`).
- **The signed message is ambiguous when a component holds a NUL** (`MessageInjectiveIff`).

## Model

| member | source | states |
|---|---|---|
| `InvoiceLedgerProofs.LedgerConfluence` | src/db/invoices.rs:643-727 | after any run, in any order and with any repeats, a non-cancelled invoice's events are the distinct valid evidence less each direct Liquid payment whose transaction is also a Boltz settlement; a cancelled one has none; `ClaimLedgersConfluent` does without the assumption on event keys |
| `InvoiceLedgerProofs.LedgerTotals` | src/db/invoices.rs:703-764 | so `paid_amount_sat` and `paid_via` are functions of the set of evidence |
| `InvoiceLedgerProofs.LedgerInvariant` | src/db/invoices.rs:709-764 | over any run, batch sweeps included: paid amount is the event sum, no transaction counted on both sources, and what each status was set on; `paid`, `overpaid` and `partially_paid` compare with the sum as they say |
| `InvoiceLedgerProofs.ExplainedThroughoutIff` | src/db/invoices.rs:942-975 | every status of a run says how the sum compares with the amount exactly when no batch write finds the amount covered |
| `InvoiceLedgerProofs.CoveredButUnderpaidIff` | src/db/invoices.rs:942-975 | an invoice reads `underpaid` with its amount covered exactly when a batch write found it covered and no payment has changed its events since |
| `InvoiceLedgerProofs.PaidAtWriteOnce` | src/db/invoices.rs:744-764 | `paid_at`, once set, never changes |
| `InvoiceLedgerProofs.SinglePaymentStatus` | src/db/invoices.rs:351-370 | one payment's status as an if-and-only-if in the shortfall and the deadline, and the bounds that fix the effective tolerance |
| `InvoiceLedgerProofs.ExpiryCloses` | src/db/invoices.rs:904-915 | past its deadline and swept an invoice is closed: expired exactly when nothing was received and nobody cancelled it, underpaid exactly when something was received and it was not accepted; what was received then fell short exactly when no batch write found it covered last |
| `InvoiceLedgerProofs.PruneEvidence` | src/db/invoices.rs:668-682 | the prune deletes exactly the direct Liquid rows of the transaction and keeps keys distinct |
| `InvoiceLedgerProofs.KeyTaken` | src/db/invoices.rs:684-701 | the insert conflicts exactly on evidence already there, and then nothing was pruned |
| `InvoiceColumns.PaymentColumns` | src/db/invoices.rs:709-764 | what a payment that changes the events leaves in each column: status by shortfall and deadline, settlement settled when accepted and none otherwise, `paid_at` the first acceptance |
| `InvoiceColumns.PaymentIgnoredIff` | src/db/invoices.rs:622-707 | exactly when a payment changes nothing, and the answer it gets |
| `InvoiceColumns.ValidIff` | src/db/invoices.rs:558-618 | evidence is valid exactly with a positive amount, one of four rail and source pairs, and the fields of its kind |
| `InvoiceColumns.ForgivenIff` | src/db/invoices.rs:351-370 | a shortfall is forgiven exactly up to the rail's own setting and one percent, or one sat |
| `InvoiceColumns.SettlementIsLastWritten` | src/db/invoices.rs:729-840 | after any run the settlement column is what the last of its writers wrote: a payment, the first sign of one, or a settlement mark on an open invoice |
| `InvoiceColumns.SweepSelectsIff` | src/db/invoices.rs:942-962 | after any run a sweep takes up a checkout's partial payment past its grace exactly when no mark has opened the settlement since the last payment and mark |
| `InvoiceColumns.PaidAtIff` | src/db/invoices.rs:744-764 | `paid_at` is the time of the payment that first left the invoice accepted, exactly when there was one |
| `InvoiceColumns.ExpireIff` | src/db/invoices.rs:904-915 | the expiry sweep changes exactly the open invoices whose deadline is strictly past |
| `InvoiceColumns.ExpiredIff` | src/db/invoices.rs:904-915 | after any run an invoice reads expired exactly when a sweep after its deadline found it open with nothing received, and nothing has been since |
| `InvoiceColumns.CancelledIff` | src/db/invoices.rs:874-898 | it is cancelled, as of then, exactly when somebody cancelled it unpaid |
| `InvoiceColumns.InProgressIff` | src/db/invoices.rs:804-813 | it is in progress exactly when a payment was announced while it was unpaid, nothing was received and no sweep closed it |
| `InvoiceStability.SingleRailStability` | src/db/invoices.rs:729-975 | on one rail the amount paid never decreases; `paid` only becomes `overpaid`, `overpaid` and `cancelled` absorb, `underpaid` leaves only to `paid` or `overpaid`, exactly when no batch write finds the invoice `paid` or `overpaid` |
| `InvoiceStability.PaidSwept` | src/db/invoices.rs:942-975 | the run that loses `paid`: one sat, the batch sweep's snapshot, the rest, its write; `underpaid` with the whole amount received, on one rail |
| `InvoiceStability.PaidLastsIff` | src/db/invoices.rs:351-370 | across rails, on prune-free runs, payments leave `paid` alone exactly when the effective tolerances of the rails differ by at most one sat; with batch sweeps it lasts exactly when besides the invoice is no checkout or one sat suffices |
| `InvoiceStability.PaidReverts` | src/db/invoices.rs:729-742 | tolerances two sats apart lose `paid` on the run in its contract: a payment short by the larger tolerance, then one sat on the stricter rail |
| `InvoiceStability.PaidAlwaysLastsIff` | src/db/invoices.rs:668-975 | over all runs, prunes and batch sweeps included, `paid` lasts exactly for one sat, or two sat with both Boltz tolerances, and for a checkout the Liquid one, at least one; from three sat on never |
| `InvoiceStability.PruneLeavesOne` | src/db/invoices.rs:668-742 | a paid invoice whose direct payment is pruned by a settlement of one sat holds one sat, and stays paid exactly when the rail's tolerance covers the rest |
| `InvoiceStore.InvoiceRow.RecordInvoicePayment` | src/db/invoices.rs:622-768 | the transaction's branches (invalid, cancelled, blocked, pruned, repeated, inserted) leave the row and return the count the ledger function says |
| `InvoiceStore.InvoiceRow.DeleteDirectRows` | src/db/invoices.rs:668-682 | deletes the direct rows of a transaction, in place, and counts them |
| `InvoiceStore.InvoiceRow.InsertEvent` | src/db/invoices.rs:684-701 | inserts unless the event key is taken |
| `InvoiceStore.InvoiceRow.SumOfAmounts` | src/db/invoices.rs:709-715 | the sum of the event amounts |
| `InvoiceStore.InvoiceRow.RecomputeColumns` | src/db/invoices.rs:709-764 | the columns of the row as the ledger's recomputation gives them, from the sum the loop computes |
| `InvoiceStore.InvoiceRow.MarkInProgress` | src/db/invoices.rs:804-813 | only an unpaid invoice goes in progress, with settlement pending |
| `InvoiceStore.InvoiceRow.MarkSettlement` | src/db/invoices.rs:815-840 | the settlement mark, refused with zero rows exactly on the five final statuses, one row otherwise |
| `InvoiceStore.InvoiceRow.Cancel` | src/db/invoices.rs:874-898 | only an unpaid invoice is cancelled; the status is returned either way |
| `InvoiceStore.InvoiceRow.ExpirePastDeadline` | src/db/invoices.rs:904-915 | past the deadline a partial payment becomes underpaid, anything else open expired |
| `InvoiceStore.InvoiceRow.TerminalizeStale` | src/db/invoices.rs:917-940 | a checkout's partial payment older than the grace period becomes underpaid unless a settlement is open, and the row count |
| `InvoiceStore.InvoiceRow.SelectStale` | src/db/invoices.rs:942-962 | the snapshot of the batch sweep: which invoices it selects |
| `InvoiceStore.InvoiceRow.WriteSelected` | src/db/invoices.rs:963-967 | the batch write to a selected invoice, whatever it has become |
| `InvoiceStore.InvoiceRow.WriteRechecked` | src/db/invoices.rs:917-940 | the write of the sweep of one invoice, its columns checked again |
| `SwapProofs.AttemptBudget` | src/db/swaps.rs:356-414 | in any run the counter counts the recorded failures, a non-terminal row has attempts left, and the row is stuck exactly when the budget is used up |
| `SwapProofs.BackoffIncreases` | src/db/swaps.rs:356-414 | jittered delays strictly increase up to the cap |
| `SwapProofs.BackoffBeforeStuck` | src/db/swaps.rs:356-414 | the waits before the last attempt are, within 20%, 2790 s after six failures and an hour for each one more |
| `SwapProofs.LeaseStepIff` | src/reconciler.rs:198-300 | inside the lease a reconciler write keeps the lease or ends the row exactly when it is not an advance |
| `SwapProofs.AdvanceOnlyFromStaleRead` | src/reconciler.rs:149-196 | an advance is decided exactly from a row read as `pending`, or as `lockup_mempool` on confirmation |
| `SwapProofs.LeasePreserved` | src/db/swaps.rs:495-582 | after the commit of a claim whose transaction began at t, over any mixed run of webhook, reconciler and claimer writes inside the window, the sweep may at some point select the row before t + 120 s exactly when some write ends the lease: a nudge finding or making the row other than `claiming`, a failure with a short backoff, a nudge or lease begun before t |
| `SwapProofs.LeaseFromBegin` | src/claimer.rs:942-961 | a claim begun at b and committed at c is left alone until b + 120 s, and is selected at once exactly when the commit came that late |
| `SwapProofs.LeaseLost` | src/claimer.rs:177-300 | two runs that lose the lease: a lockup webhook and then a fresh reconciler's nudge, or an advance decided on a `pending` read |
| `SwapProofs.ReconcilerKeepsLease` | src/reconciler.rs:198-300 | any run of reconciler visits that decide no advance leaves the due time at t + 120 s or ends the row |
| `ClaimProofs.BookkeepFindsEnded` | src/claimer.rs:1039-1069 | whenever a worker may clear the retry bookkeeping the swap has ended |
| `SwapProofs.NudgeNeverLater` | src/db/swaps.rs:495-539 | on a future due time of a `claiming` row a nudge is never later and never due at once |
| `SwapProofs.NudgedReadyIff` | src/db/swaps.rs:495-582 | after a nudge the sweep selects a claimable row at once exactly when no claim's lease is running |
| `SwapProofs.DeliveryIrrelevant` | src/reconciler.rs:149-196 | class, refusal flag and attempts are the same whether each Boltz status came by webhook or by a reconciler with any staleness |
| `SwapProofs.RepeatsIrrelevant` | src/reconciler.rs:149-196 | a Boltz status that comes again, by the same path or the other and whatever happened in between, changes nothing |
| `SwapProofs.SameNewsSameOutcome` | src/reconciler.rs:149-196 | from a new row on, any two deliveries of the same news, repeats aside, end in the same class, flag and attempts |
| `SwapProofs.StepRefines` | src/claimer.rs:177-366 | one webhook, reconciler or claimer write refines one step of the path-free machine |
| `SwapProofs.NeverMovesBack` | src/reconciler.rs:149-196 | the class never moves back, the refusal flag never clears, an ended swap stays ended |
| `SwapProofs.TerminalRowsFrozen` | src/claimer.rs:592-957 | over any run of all writes a row that has ended keeps status, attempts, refusal flag and a claim transaction or address it has, and stays as it is exactly when no write persists or fixes what was missing or clears what was there |
| `SwapProofs.EndedWriteIff` | src/db/swaps.rs:280-559 | the same for one write: the persist, the address write and the clearing are the only ones that change an ended row, and exactly when there is nothing yet, or something to clear |
| `SwapStore.SwapRecord.UpdateStatus` | src/db/swaps.rs:280-298 | the guarded status write, and zero rows exactly on a terminal row |
| `SwapStore.SwapRecord.MarkCooperativeRefused` | src/db/swaps.rs:308-320 | the one-way refusal flag |
| `SwapStore.SwapRecord.RecordClaimFailure` | src/db/swaps.rs:356-414 | bump, backoff and, at the budget, the stuck status |
| `SwapStore.SwapRecord.ScheduleImmediateClaim` | src/db/swaps.rs:495-512 | the due time of a nudge, a running lease respected |
| `SwapStore.SwapRecord.ScheduleScriptPathRetry` | src/db/swaps.rs:521-540 | refusal flag and nudge in one update |
| `SwapStore.SwapRecord.ClearClaimFailureState` | src/db/swaps.rs:547-559 | clears error and due time, whatever the status |
| `SwapStore.SwapRecord.PersistAndStart` | src/claimer.rs:919-957 | claim transaction persisted only if there is none, then the lease unless the row ended meanwhile |
| `SwapStore.SwapRecord.AssignAddress` | src/claimer.rs:592-700 | the address write, once only, whatever the status |
| `SwapColumns.ReverseWebhookIff` | src/claimer.rs:240-360 | the status and flag each Boltz status leaves on a reverse swap |
| `SwapColumns.DecidedIff` | src/reconciler.rs:149-196 | which read and which Boltz status decide each action of the reconciler |
| `SwapColumns.SweepTakesIff` | src/db/swaps.rs:560-582 | the statuses and due times the sweep takes up, in both tables |
| `SwapColumns.BackoffTable` | src/db/swaps.rs:356-414 | the waits of the backoff table in seconds, and their jitter |
| `SwapColumns.ClaimColumns` | src/claimer.rs:919-957 | who writes claim transaction, path, reported txid and address, and when |
| `SwapColumns.FailureColumns` | src/db/swaps.rs:308-414 | who counts and describes failures, and who raises the refusal flag |
| `SwapColumns.DueColumn` | src/db/swaps.rs:356-559 | who writes the due time, and what |
| `SwapColumns.StatusColumn` | src/reconciler.rs:198-300 | who writes the status, and what |
| `ClaimProofs.SingleClaimTransaction` | src/claimer.rs:839-976 | over every interleaving and every continuation, all transactions ever broadcast for a swap are the one persisted transaction; it spends only the swap's lockup outputs and pays only its one claim address; both never change |
| `ClaimProofs.SettlementSoundness` | src/claimer.rs:974-1082 | a Boltz ledger event is read off a swap of that invoice: amount, source and rail of its kind, the user lock amount for a chain swap; its transaction is on the network, spends the lockup output and pays the claim address |
| `ClaimProofs.SwapContributesOnce` | src/claimer.rs:1039-1082 | two Boltz events of one swap, in whichever ledgers, are the same event of the same ledger |
| `ClaimProofs.SettlementEvidenceUnique` | src/invoice.rs:213-336 | whatever is recorded for a swap at any time is the same evidence |
| `ClaimProofs.InvariantOfRuns` | src/claimer.rs:825-1085 | the invariant of every interleaving: rows, workers, ledgers, broadcasts, locks and the network |
| `ClaimProofs.RunsGrow` | src/claimer.rs:592-735 | kind, claim transaction, address and final status are write-once; the network and the invoices only grow |
| `ClaimProofs.AddressKeeps` | src/claimer.rs:592-735 | fixing the claim address under the lock keeps the invariant |
| `ClaimProofs.CommitKeeps` | src/claimer.rs:866-961 | persisting and committing keeps the invariant though webhooks wrote the row since it was read |
| `ClaimProofs.ProbeKeeps` | src/claimer.rs:974-1037 | recovery from a failed broadcast keeps the invariant: a foreign spender counts only if it pays the claim's destination |
| `ClaimColumns.FailedAttempt` | src/claimer.rs:825-1037 | an attempt that fails anywhere gives back the lock, counts on its row, takes nothing off the network and ends the worker; the invoice hears of it only when the budget is gone |
| `ClaimColumns.FailureIff` | src/db/swaps.rs:356-414 | what a recorded failure writes, and exactly when it marks the invoice's settlement stuck |
| `ClaimColumns.ConstructIff` | src/claimer.rs:866-937 | a constructed claim spends the swap's lockup outputs only, pays its address only, and goes by script once the cooperative path was refused |
| `ClaimColumns.BroadcastIff` | src/claimer.rs:962-985 | what gets on the network, and what the worker is told |
| `ClaimColumns.ProbeSpenderIff` | src/claimer.rs:985-1037 | a spender of the lockup output counts exactly when it pays an output the claim pays |
| `ClaimColumns.BookkeepIff` | src/claimer.rs:1052-1069 | the two writes after a claim: the open invoice of the swap settled, the retry bookkeeping cleared |
| `ClaimColumns.ResolveBumps` | src/claimer.rs:645-700 | an address derived for a nym uses up one index of its cursor |
| `ClaimLedgers.ClaimLedgersConfluent` | src/claimer.rs:1039-1082 | after any run of the claim protocol whose watchers key by outpoint and never contradict themselves, an open invoice's events are the canonical form of everything recorded in it; that an event key names one piece of evidence is proved |
| `ClaimLedgers.ClaimLedgersExplained` | src/db/invoices.rs:709-975 | every invoice of the protocol keeps the ledger invariant, and its status says how the sum compares unless a batch write found it covered last |
| `ClaimLedgers.InvoiceIsLedgerRun` | src/claimer.rs:825-1085 | every invoice of the protocol is a run of ledger steps from a fresh invoice |
| `ServerLocks.ServerLockNeeded` | src/claimer.rs:368-475 | in every run a chain swap is selected, read for a claim, given a claim transaction, broadcast or claimed only after a webhook reported its server lockup |
| `ServerLocks.ChainWebhookIff` | src/claimer.rs:458-475 | the status each Boltz status sets on a chain swap, which of them make it claimable and which end it |
| `ClaimCompletes.ClaimSucceeds` | src/claimer.rs:825-1085 | an uninterrupted claim whose transaction the network takes ends claimed under the persisted transaction, broadcast and on the network, lock free, nothing to retry, and settled in the ledger of an open invoice |
| `ClaimCompletes.ClaimCredits` | src/claimer.rs:1039-1082 | an uninterrupted claim credits the swap's invoice with the swap's own amount, what the user locked up for a chain swap, under the claim transaction |
| `ClaimCompletes.RunsCanCredit` | src/claimer.rs:825-1085 | whatever a run has come to, one more claim of a swap that can be claimed credits its invoice |
| `ClaimCompletes.EndedRowGainsClaim` | src/claimer.rs:866-957 | a run in which a swap ends between a claimer's read and its writes: it gains the address and the claim transaction, and its status stays as it ended |
| `ClaimCompletes.Resolves` | src/claimer.rs:592-735 | the claim address is the one fixed before, else the invoice's, else the next of the nym's descriptor |
| `ClaimCompletes.Builds` | src/claimer.rs:866-937 | a persisted transaction is used again, otherwise the constructed one |
| `ClaimCompletes.SettlementThere` | src/claimer.rs:1070-1082 | a settlement recorded in an invoice that is not cancelled is in its ledger afterwards |
| `ClaimProtocol.ClaimColumnsUntouched` | src/claimer.rs:177-456 | no webhook or reconciler write touches the transaction, address and kind a claim depends on; which statuses they set is in `ServerLocks.ChainWebhookIff`, `SwapColumns.ReverseWebhookIff` and `SwapColumns.StatusColumn` |
| `SlidingWindow.SlidingWindowRefinesHistory` | src/rate_limit.rs:651-712 | in any run with idle sweeps anywhere in which nothing is forgotten, the pruned deques answer every check, peek and record as the full history does, and no closed interval of window length holds more than `limit` allowed requests of a key that is only checked |
| `SlidingWindow.RemembersIff` | src/rate_limit.rs:651-712 | on any clock that never goes back, all requests inside their window stay in the deques all along exactly when no operation meets its forgetting guard |
| `SlidingWindow.ForgettingTells` | src/rate_limit.rs:651-712 | a run that forgets goes on, with checks of one key at that instant, to an answer the full history does not give; for a key that is only checked, to a request allowed above the limit |
| `SlidingWindow.SweepForgetsIff` | src/rate_limit.rs:691-701 | a sweep keeps a key's requests inside the window exactly when the clock is as old as `max_age`, its last request is of this instant, or none is inside |
| `SlidingWindow.SweepForgetsRun` | src/main.rs:237-256 | limit 1, window 3600 s: a sweep of 7200 s at 5000 s lets a second request through at 5001 s |
| `SlidingWindow.OldClockForgetsNothing` | src/rate_limit.rs:691-712 | a clock as old as every window and every `max_age`, each at least a window, forgets nothing |
| `SlidingWindow.YoungClockIff` | src/rate_limit.rs:704-712 | a check counts its window right exactly when the clock is as old as the window or nothing older is recorded |
| `SlidingWindow.PruneCounts` | src/rate_limit.rs:704-712 | the pruned deque is as long as the history counts in the window |
| `SlidingWindow.InMemorySliding.PruneOld` | src/rate_limit.rs:704-712 | the pop loop leaves the pruned deque |
| `SlidingWindow.InMemorySliding.CheckAndRecord` | src/rate_limit.rs:652-670 | check and record of one key, other keys untouched |
| `SlidingWindow.InMemorySliding.PeekCount` | src/rate_limit.rs:672-678 | the count inside the window, nothing recorded |
| `SlidingWindow.InMemorySliding.Record` | src/rate_limit.rs:680-689 | records unconditionally and counts |
| `SlidingWindow.InMemorySliding.Sweep` | src/rate_limit.rs:691-701 | removes exactly the idle keys |
| `TokenBucket.Throughput` | src/rate_limit.rs:721-757 | any closed interval of T whole seconds admits at most (T+1) times the rate, whatever came before |
| `TokenBucket.TokensStayBounded` | src/rate_limit.rs:721-757 | tokens stay within the capacity |
| `TokenBucket.SpendBound` | src/rate_limit.rs:738-757 | spending is bounded by the tokens at hand and a bucketful for each whole second since the last refill |
| `TokenBucket.IdleSecondGrants` | src/rate_limit.rs:738-757 | after a second without a refill a whole bucketful of calls succeeds |
| `TokenBucket.FreshGrants` | src/rate_limit.rs:721-746 | a new bucket grants exactly its rate within the first second |
| `TokenBucket.RefillIff` | src/rate_limit.rs:748-757 | a refill adds a bucketful for each whole second modulo 2^32, up to the capacity, and nothing within the second |
| `TokenBucket.WrappedIdle` | src/rate_limit.rs:748-757 | after exactly 2^32 idle seconds nothing is added |
| `TokenBucket.Bucket.Take` | src/rate_limit.rs:738-746 | one `try_consume`, in place |
| `TokenBucket.Bucket.TopUp` | src/rate_limit.rs:748-757 | one refill, in place |
| `AddressCursor.FreshIssue` | src/db/donation_pages.rs:158-300 | over every interleaving, a cursor's issued indices strictly increase, each issued address was unassigned when probed and every skipped one assigned when probed |
| `AddressCursor.ExhaustedMovesHundred` | src/db/donation_pages.rs:216-228 | a call out of attempts moves the cursor by exactly 100, issues nothing, and all 100 were assigned when probed |
| `AddressCursor.UninterruptedCall` | src/db/donation_pages.rs:185-228 | a call nothing interrupts does what the loop does |
| `AddressCursor.WholeCall` | src/db/donation_pages.rs:158-230 | from any reachable state a call nothing interrupts does nothing on a closed page, and otherwise ends as the loop does with the lock free and nothing else changed |
| `AddressCursor.CrashFrees` | src/db/donation_pages.rs:158-183 | a crash frees the worker's lock and moves no cursor |
| `AddressCursor.PageEdits` | src/db/donation_pages.rs:41-103 | what page edits, archiving and assignments by others change |
| `AddressCursor.ScanFindsLeast` | src/db/donation_pages.rs:185-228 | the loop finds the least unassigned index of its hundred, or says that there is none |
| `AddressCursor.InvariantOfRuns` | src/db/donation_pages.rs:158-300 | inside a call the cursor is where the call found it, and a cursor that has not wrapped is past everything issued |
| `AddressCursor.DonationPage.ProbeLoop` | src/db/donation_pages.rs:185-214 | the probe loop |
| `AddressCursor.DonationPage.AllocateForPage` | src/db/donation_pages.rs:158-230 | the page allocator: what it returns and the only column it moves |
| `AddressCursor.DonationPage.AllocateForPos` | src/db/donation_pages.rs:232-300 | the POS allocator, on its own descriptor and cursor |
| `GapScan.GapScanConverges` | src/chain_watcher.rs:383-453 | stale, throttled and failed polls never move the cursor back or past any index that is the least with an unused window; as many complete polls as there were used indices below it bring the cursor there |
| `GapScan.PollStep` | src/chain_watcher.rs:383-453 | the same for one poll, and a complete one makes progress |
| `GapScan.CompletePassSees` | src/chain_watcher.rs:383-449 | a pass that is not cut short sees a payment if there is one in its window |
| `GapScan.Fixpoint` | src/chain_watcher.rs:383-453 | the fixpoint exists and is the start or just past a used index |
| `GapScan.AdvanceForwardIff` | src/db/watcher.rs:78-95 | the guarded write moves forward except at the last index, which wraps the cursor below zero; a later poll leaves it there exactly when it listed a negative cursor, saw no payment or saw one at the last index |
| `GapScan.SeenIff` | src/chain_watcher.rs:383-449 | a poll sees exactly the first payment of its window that nothing cuts off |
| `GapScan.FulfilledIff` | src/chain_watcher.rs:420-453 | over any polls a cached address is marked fulfilled exactly when a poll saw a payment at its index, and keeps its index |
| `GapScan.NymRow.Poll` | src/chain_watcher.rs:356-456 | one nym of one poll: cursor and fulfilled reservations |
| `AuthMessage.DecodeOfEncode` | src/auth.rs:38-68 | a decoder reads every message, and gives back the very request exactly when no component holds a NUL |
| `AuthMessage.EncodeOfDecode` | src/auth.rs:38-68 | a message the decoder reads is the one its request builds |
| `AuthMessage.MessageInjectiveIff` | src/auth.rs:38-68 | the message identifies the request among NUL-free ones, field count and empty nym included, exactly when it is NUL-free itself |
| `AuthMessage.BuildMessage` | src/auth.rs:38-68 | the buffer the pushes build is the framed message |
| `AuthMessage.Layout` | src/auth.rs:38-68 | the message byte for byte: tag, action, key, nym and fields, each followed by a NUL, then the timestamp |
| `Bip21.AppendShape` | src/invoice.rs:1305-1324 | base kept, other non-empty parameters kept in order, one `message` parameter, last |
| `Bip21.AppendOverwrites` | src/invoice.rs:1305-1324 | appending twice is appending the last; a reader gets the message's bytes back |
| `Bip21.KeepIff` | src/invoice.rs:1311-1319 | kept is everything but empty parts, a bare `message` and what begins with `message=` |
| `Bip21.UriParts` | src/invoice.rs:1305-1319 | the base ends at the first question mark and the query is cut at its ampersands |
| `Bip21.UnreservedIff` | src/invoice.rs:1326-1337 | letters, digits and the four marks of section 2.3 of RFC 3986 stay as they are |
| `Bip21.EscapedIff` | src/invoice.rs:1326-1337 | every other byte becomes a percent sign and two upper-case digits |
| `Bip21.DecodeOfEncode` | src/invoice.rs:1326-1337 | percent-decoding inverts the encoding (sections 2.1 and 2.3 of RFC 3986) |
| `Bip21.AppendMessage` | src/invoice.rs:1305-1324 | the rewriter |
| `Bip21.KeepParams` | src/invoice.rs:1311-1319 | the filter over the query's parts |
| `Bip21.PercentEncodeQueryValue` | src/invoice.rs:1326-1337 | the encoding loop |
| `Split.SplitOfJoin` | src/invoice.rs:1311-1324 | splitting inverts joining on separator-free parts |
| `Split.JoinOfSplit` | src/invoice.rs:1311-1324 | joining inverts splitting |
| `Failover.FailoverRing` | src/utxo.rs:285-353 | started disconnected, the outcome is that of the first good server in ring order, connected there, everyone before it asked once; it fails only when none is good, and then everyone that accepts was asked |
| `Failover.ReachedIff` | src/utxo.rs:300-349 | a good server is reached exactly when fewer servers accept before it than there are attempts |
| `Failover.StaleConnection` | src/utxo.rs:295-353 | a call on a stale connection succeeds exactly when another server is good, or its own is and there is no other or one that refuses; it answers with the first good server's reply from the next on |
| `Failover.Walk` | src/utxo.rs:285-353 | a present client always belongs to `urls[url_idx]`, and the call fails exactly when it leaves none |
| `Failover.ElectrumClient.constructor` | src/utxo.rs:233-273 | the first server that accepts, or none and index zero |
| `Failover.ElectrumClient.RunOp` | src/utxo.rs:285-353 | the nested loops walk the ring as specified |
| `RegistrationProofs.KeysWithinLimits` | src/db/users.rs:155-244 | in any run a key has at most one active nym and at most `cap` nyms |
| `RegistrationProofs.OwnerNeverChanges` | src/db/users.rs:155-384 | a nym stays registered, and with the same key, for ever |
| `RegistrationProofs.OwnerCanReturn` | src/db/users.rs:193-219 | after any run, a key that deactivates or purges its nym gets it back at once, under the new descriptor, with the cursor kept and no cached reservation |
| `RegistrationProofs.ReturnIff` | src/db/users.rs:180-242 | a key without an active nym gets one of its own back exactly when it has none newer; otherwise registering it fails and changes nothing |
| `RegistrationProofs.OlderNymLost` | src/db/users.rs:180-242 | the run that loses a nym: register, leave, register and leave another, come back |
| `RegistrationProofs.NewestActiveOfRuns` | src/db/users.rs:155-384 | the active nym of a key is always its newest |
| `RegistrationProofs.SwapDeletedOnlyWhenDone` | src/db/users.rs:318-355 | whatever runs between a purge's check and its deletes, a swap row goes only when claimed or expired, by the purge of its nym |
| `RegistrationProofs.ReservationCurrentIff` | src/db/reservations.rs:61-107 | a cached reservation belongs to the current descriptor exactly when it was read under the descriptor in force at its insert or, if a descriptor write was then past its delete and has committed since, under that write's |
| `RegistrationProofs.UninterruptedReservationsCurrent` | src/db/reservations.rs:61-107 | so it always does when neither reservations nor descriptor writes are interrupted |
| `RegistrationProofs.InterruptedReservation` | src/db/users.rs:264-288 | an update in between leaves a stale row |
| `RegistrationProofs.ReservationInTheGap` | src/db/users.rs:264-288 | a reservation made wholly between an update's delete and its commit stays behind stale, while the one the delete found goes |
| `RegistrationColumns.PurgeIff` | src/db/users.rs:318-384 | a purge is carried out exactly when the key's active nym has only claimed or expired swaps; then its swaps and reservations are gone, its descriptor empty, owner and cursor kept; otherwise nothing changes and the number in flight is answered |
| `RegistrationColumns.WholePurge` | src/db/users.rs:318-384 | the check and the deletes of a purge with nothing in between are the purge |
| `RegistrationColumns.RegisterAnswers` | src/db/users.rs:155-244 | each of the five answers, exactly when |
| `RegistrationColumns.RegisterLeaves` | src/db/users.rs:193-242 | the columns of the registered row, and that nothing else changes |
| `RegistrationColumns.UpdateLeaves` | src/db/users.rs:264-288 | the active nym's descriptor written, its reservations gone, nothing else |
| `RegistrationColumns.DeactivateLeaves` | src/db/users.rs:290-300 | the active flag cleared, nothing else |
| `RegistrationColumns.ReserveLeaves` | src/db/reservations.rs:61-107 | the cached index answered, or the cursor of the active row cached |
| `RegistrationColumns.FinishReserveIff` | src/db/reservations.rs:86-107 | a reservation that has read waits for a purge of its nym and a delete of its key, and otherwise inserts what it read unless another was faster |
| `RegistrationColumns.RegisterWaitsIff` | src/db/users.rs:163-172 | a registration waits for a reactivation of the same key and nothing else |
| `RegistrationColumns.ReservationDroppedBy` | src/db/reservations.rs:61-124 | a reservation goes only with a descriptor write or purge of its nym, or a prune while it is not fulfilled, and keeps its index |
| `Registration.Registry.RegisterUser` | src/db/users.rs:155-244 | already registered, reactivated, over quota, nym taken, or created |
| `Registration.Registry.Update` | src/db/users.rs:264-288 | new descriptor, cached reservations dropped |
| `Registration.Registry.DeactivateUser` | src/db/users.rs:290-300 | the active row goes inactive |
| `Registration.Registry.PurgeUser` | src/db/users.rs:318-384 | not found, refused while swaps are in flight, or swaps and reservations gone and descriptor emptied |
| `Registration.Registry.Reserve` | src/db/reservations.rs:61-107 | the cached index, or the current one cached |

## Left out

- Other invoices of the events table: `event_key` is unique across all invoices in the source; the ledger models one invoice, and the claim protocol proves the uniqueness across invoices that matters (`SwapContributesOnce`).
- InvoiceLedgerProofs.LedgerConfluence: assumes that one event key always carries the same evidence; `ClaimLedgersConfluent` proves it for the claim protocol, assuming of the watchers that a transaction output is immutable.
- InvoiceStability.SingleRailStability: stated for evidence of one rail, because across rails it is false (`PaidLastsIff`).
- Failed inserts and the `BIGINT` range of the sum: amounts are unbounded.
- The limit of 1000 rows, oldest first, of the batch sweep of stale partial payments; payment observations.
- SwapProofs.LeasePreserved: about writes with a time before t + 120 s, and clearings that find the swap ended, as `BookkeepFindsEnded` says they do.
- Status order of chain swaps: a late webhook may move a non-terminal chain swap's status back; only a terminal status is final.
- ClaimProofs.RunsGrow: `delete_unpaid_invoice_without_swaps` (`src/db/invoices.rs:216-232`) is not modelled; it deletes invoices no swap refers to, so their ledgers end.
- Liveness: a crash between the `claimed` write and the event write is not retried, so nothing says that every claimed swap gets an event.
- Operator rescue and fee bumps that reset `claim_tx_hex`, deletion of swap rows while claims run, and advisory-lock hash collisions.
- The descriptor read of claim-time allocation, which the source makes on another connection just before the cursor bump; the model reads both at once.
- ClaimProofs.SingleClaimTransaction: `users.next_addr_idx` has several writers, so freshness of the claim address is not claimed.
- SlidingWindow.SlidingWindowRefinesHistory: a configured limit of zero disables the check before the window is consulted (`src/rate_limit.rs:510-512`); that wrapper is not modelled.
- The Postgres-backed limiters.
- GapScan.GapScanConverges: the set of used indices is fixed, and no other writer moves the cursor while the polls run.
- Donation-page columns other than the two cursors, their descriptors and the archive flag.
- The transaction cache of the Electrum client and the JSON decoding of histories.
- The archiving of the donation page and the `has_been_used` flag set by registration steps; `created_at` is the order of insertion.
- Signature checks, timestamp freshness, descriptor derivation, MuSig2, unblinding, HTTP, Boltz, the pricer and page rendering.
