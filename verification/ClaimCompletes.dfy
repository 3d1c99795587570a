/** What a claim achieves when nothing gets in its way: the safety results say nothing of a service that
    never claims. */
module ClaimCompletes {
  import opened Base
  import opened Chain
  import opened Swaps
  import opened ClaimProtocol
  import L = InvoiceLedger
  import LP = InvoiceLedgerProofs
  import P = ClaimProofs

  /** Where a claim of `s` would pay: the address fixed before, the invoice's, or the next one of the
      nym's descriptor. */
  function AddressFor(st: State, s: SwapId): Option<Address>
    requires s in st.rows
  {
    var row := st.rows[s];
    match row.kind
    case ChainSwap(i, _, _) => InvoiceAddress(st, i)
    case ReverseSwap(invoice, nym, _) =>
      if row.address.Some? then row.address
      else if invoice.Some? then InvoiceAddress(st, invoice.value)
      else if nym.None? || nym.value !in st.users then None
      else
        var user := st.users[nym.value];
        if user.descriptor == "" || user.nextAddrIdx < 0 then None else Some(Derived(user.descriptor, user.nextAddrIdx))
  }

  function InvoiceAddress(st: State, i: InvoiceId): Option<Address> {
    if i in st.liquidAddress then st.liquidAddress[i] else None
  }

  /** An idle worker, a free lock, a claimable row and somewhere to pay. */
  ghost predicate CanClaim(st: State, w: WorkerId, s: SwapId) {
    && PhaseOf(st, w) == Idle && s !in st.locks && s in st.rows
    && IsClaimable(st.rows[s].status) && AddressFor(st, s).Some?
  }

  /** Steps taken one after the other, with nothing in between. */
  function RunFrom(st: State, steps: seq<Step>, cfg: Config): State
    decreases |steps|
  {
    if steps == [] then st else RunFrom(Apply(st, steps[0], cfg), steps[1..], cfg)
  }

  lemma RunCons(st: State, step: Step, rest: seq<Step>, cfg: Config)
    ensures RunFrom(st, [step] + rest, cfg) == RunFrom(Apply(st, step, cfg), rest, cfg)
  {
    assert ([step] + rest)[1..] == rest;
  }

  /** They add up to a run when they start from one. */
  lemma {:induction false} RunFromIsRun(steps: seq<Step>, more: seq<Step>, cfg: Config)
    ensures RunFrom(Run(steps, cfg), more, cfg) == Run(steps + more, cfg)
    decreases |more|
  {
    if more == [] {
      assert steps + more == steps;
    } else {
      assert (steps + [more[0]])[..|steps|] == steps;
      assert steps + more == steps + [more[0]] + more[1..];
      RunFromIsRun(steps + [more[0]], more[1..], cfg);
    }
  }

  // The steps of a claim from each stage on. `tx` is what the oracle constructs if nothing is persisted.

  function FromAccounting(w: WorkerId, clock: int): seq<Step> {
    [Bookkeep(w, true, true)] + [RecordEvent(w, clock)]
  }

  function FromSending(w: WorkerId, clock: int): seq<Step> {
    [Broadcast(w, true, true)] + ([MarkClaimed(w)] + FromAccounting(w, clock))
  }

  function FromBuilding(w: WorkerId, tx: Tx, now: real, clock: int): seq<Step> {
    [UsePersisted(w)] + ([Construct(w, tx)] + ([Commit(w, now)] + FromSending(w, clock)))
  }

  function WholeClaim(w: WorkerId, s: SwapId, tx: Tx, now: real, clock: int): seq<Step> {
    [Acquire(w, s)] + ([ReadRow(w)] + ([ResolveAddress(w)] + FromBuilding(w, tx, now, clock)))
  }

  // --- What holds at each stage ---

  /** What is known of the swap's invoice: nothing, that it can be paid, or that besides it has no event of
      this swap yet. */
  datatype Payable = Unknown | Open | OpenAndNew

  ghost predicate Common(st: State, s: SwapId, kind: SwapKind, open: Payable) {
    && s in st.rows && st.rows[s].kind == kind
    && (open != Unknown ==>
          && InvoiceOf(kind).Some? && AmountOf(kind) > 0 && InvoiceOf(kind).value in st.invoices
          && st.invoices[InvoiceOf(kind).value].status != L.Cancelled)
    && (open == OpenAndNew ==>
          !L.HasKey(st.invoices[InvoiceOf(kind).value].events, L.BoltzKey(SourceOf(kind), s)))
  }

  ghost function PayableBy(st: State, s: SwapId, kind: SwapKind): Payable {
    if Common(st, s, kind, OpenAndNew) then OpenAndNew else if Common(st, s, kind, Open) then Open else Unknown
  }

  /** The settlement is in the ledger of invoice `i`, with what the swap pays. */
  ghost predicate CreditedIn(st: State, i: InvoiceId, s: SwapId, kind: SwapKind, claim: Tx) {
    i in st.invoices
    && exists r :: r in st.invoices[i].events && P.Credits(i, s, kind, r.evidence) && r.evidence.txid == Some(claim)
  }

  ghost predicate OnTheWay(st: State, s: SwapId, claim: Tx) {
    s in st.rows && s !in st.locks && st.rows[s].claimTx == Some(claim)
  }

  /** Claimed under `claim`, broadcast and on the network, nothing left to retry, the settlement in the
      ledger of an open invoice. */
  ghost predicate Done(st: State, w: WorkerId, s: SwapId, kind: SwapKind, claim: Tx, open: Payable) {
    && PhaseOf(st, w) == Idle && s !in st.locks && s in st.rows
    && st.rows[s].status == ClaimedOf(st.rows[s].status)
    && st.rows[s].claimTx == st.rows[s].claimTxid == Some(claim) && st.rows[s].nextClaimAttemptAt.None?
    && claim in st.network && (s, claim) in st.broadcasts
    && (open != Unknown ==>
          && InvoiceOf(kind).Some? && InvoiceOf(kind).value in st.invoices
          && L.HasKey(st.invoices[InvoiceOf(kind).value].events, L.BoltzKey(SourceOf(kind), s)))
    && (open == OpenAndNew ==> CreditedIn(st, InvoiceOf(kind).value, s, kind, claim))
  }

  /** The first step of a run, given where it leads. */
  lemma StepFirst(st: State, step: Step, next: State, rest: seq<Step>, cfg: Config,
                  w: WorkerId, s: SwapId, kind: SwapKind,
                  claim: Tx, open: Payable)
    requires Apply(st, step, cfg) == next && Done(RunFrom(next, rest, cfg), w, s, kind, claim, open)
    ensures Done(RunFrom(st, [step] + rest, cfg), w, s, kind, claim, open)
  {
    RunCons(st, step, rest, cfg);
  }

  lemma TwoSteps(st: State, first: Step, mid: State, second: Step, next: State, rest: seq<Step>, cfg: Config,
                 w: WorkerId, s: SwapId, kind: SwapKind, claim: Tx, open: Payable)
    requires Apply(st, first, cfg) == mid && Apply(mid, second, cfg) == next
    requires Done(RunFrom(next, rest, cfg), w, s, kind, claim, open)
    ensures Done(RunFrom(st, [first] + ([second] + rest), cfg), w, s, kind, claim, open)
  {
    StepFirst(mid, second, next, rest, cfg, w, s, kind, claim, open);
    StepFirst(st, first, mid, [second] + rest, cfg, w, s, kind, claim, open);
  }

  lemma RunTwo(st: State, first: Step, mid: State, second: Step, next: State, cfg: Config)
    requires Apply(st, first, cfg) == mid && Apply(mid, second, cfg) == next
    ensures RunFrom(st, [first] + [second], cfg) == next
  {
    RunCons(st, first, [second], cfg);
    RunCons(mid, second, [], cfg);
    assert [second] + [] == [second];
  }

  // --- The last stages first ---

  /** A settlement recorded in an invoice that is not cancelled is there afterwards. */
  lemma SettlementThere(inv: L.Invoice, s: SwapId, kind: SwapKind, txid: Tx, tol: L.Tolerances, clock: int)
    requires inv.status != L.Cancelled && AmountOf(kind) > 0
    ensures var events := L.Record(inv, SettlementEvidence(s, kind, txid), tol, clock).0.events;
      && L.HasKey(events, L.BoltzKey(SourceOf(kind), s))
      && (!L.HasKey(inv.events, L.BoltzKey(SourceOf(kind), s))
          ==> L.EventRow(SettlementEvidence(s, kind, txid), clock) in events)
  {
    var e := SettlementEvidence(s, kind, txid);
    var kept := L.PruneDirect(inv.events, e.txid);
    LP.PruneMembers(inv.events, e.txid);
    if !L.HasKey(kept, e.eventKey) {
      assert (kept + [L.EventRow(e, clock)])[|kept|] == L.EventRow(e, clock);
    } else if |kept| == |inv.events| {
      LP.PrunedNone(inv.events, e.txid);
    }
  }

  lemma Recorded(st: State, w: WorkerId, s: SwapId, kind: SwapKind, claim: Tx, open: Payable, clock: int, cfg: Config)
    requires PhaseOf(st, w) == Booked(s, claim, claim) && Common(st, s, kind, open) && OnTheWay(st, s, claim)
    requires st.rows[s].status == ClaimedOf(st.rows[s].status) && st.rows[s].claimTxid == Some(claim)
    requires st.rows[s].nextClaimAttemptAt.None? && claim in st.network && (s, claim) in st.broadcasts
    ensures Done(DoRecordEvent(st, w, clock, cfg.tol), w, s, kind, claim, open)
  {
    if open != Unknown {
      SettlementThere(st.invoices[InvoiceOf(kind).value], s, kind, claim, cfg.tol, clock);
    }
  }

  lemma Bookkept(st: State, w: WorkerId, s: SwapId, kind: SwapKind, claim: Tx, open: Payable)
    requires PhaseOf(st, w) == Marked(s, claim, claim) && Common(st, s, kind, open) && OnTheWay(st, s, claim)
    ensures var st' := DoBookkeep(st, w, true, true);
      && PhaseOf(st', w) == Booked(s, claim, claim) && Common(st', s, kind, open) && OnTheWay(st', s, claim)
      && st'.rows[s] == ClearClaimFailureState(st.rows[s])
      && st'.network == st.network && st'.broadcasts == st.broadcasts
  {
  }

  lemma AccountingRun(st: State, w: WorkerId, clock: int, cfg: Config)
    ensures RunFrom(st, FromAccounting(w, clock), cfg)
        == DoRecordEvent(DoBookkeep(st, w, true, true), w, clock, cfg.tol)
  {
    var next := DoBookkeep(st, w, true, true);
    RunTwo(st, Bookkeep(w, true, true), next, RecordEvent(w, clock), DoRecordEvent(next, w, clock, cfg.tol), cfg);
  }

  lemma BookkeepStage(st: State, w: WorkerId, s: SwapId, kind: SwapKind, claim: Tx, open: Payable, clock: int,
                      cfg: Config)
    requires PhaseOf(st, w) == Marked(s, claim, claim) && Common(st, s, kind, open) && OnTheWay(st, s, claim)
    requires st.rows[s].status == ClaimedOf(st.rows[s].status) && st.rows[s].claimTxid == Some(claim)
    requires claim in st.network && (s, claim) in st.broadcasts
    ensures Done(RunFrom(st, FromAccounting(w, clock), cfg), w, s, kind, claim, open)
  {
    var next := DoBookkeep(st, w, true, true);
    Bookkept(st, w, s, kind, claim, open);
    Recorded(next, w, s, kind, claim, open, clock, cfg);
    AccountingRun(st, w, clock, cfg);
  }

  lemma MarkedShape(st: State, w: WorkerId, s: SwapId, kind: SwapKind, claim: Tx, open: Payable)
    requires PhaseOf(st, w) == OnNetwork(s, claim, claim) && Common(st, s, kind, open) && OnTheWay(st, s, claim)
    requires !IsTerminal(st.rows[s].status)
    ensures var st' := DoMarkClaimed(st, w);
      && PhaseOf(st', w) == Marked(s, claim, claim) && Common(st', s, kind, open) && OnTheWay(st', s, claim)
      && st'.rows[s].status == ClaimedOf(st'.rows[s].status) && st'.rows[s].claimTxid == Some(claim)
      && st'.network == st.network && st'.broadcasts == st.broadcasts
  {
  }

  lemma MarkRun(st: State, w: WorkerId, rest: seq<Step>, cfg: Config)
    ensures RunFrom(st, [MarkClaimed(w)] + rest, cfg) == RunFrom(DoMarkClaimed(st, w), rest, cfg)
  {
    RunCons(st, MarkClaimed(w), rest, cfg);
  }

  lemma MarkStage(st: State, w: WorkerId, s: SwapId, kind: SwapKind, claim: Tx, open: Payable, clock: int, cfg: Config)
    requires PhaseOf(st, w) == OnNetwork(s, claim, claim) && Common(st, s, kind, open) && OnTheWay(st, s, claim)
    requires !IsTerminal(st.rows[s].status) && claim in st.network && (s, claim) in st.broadcasts
    ensures Done(RunFrom(st, [MarkClaimed(w)] + FromAccounting(w, clock), cfg), w, s, kind, claim, open)
  {
    var next := DoMarkClaimed(st, w);
    MarkedShape(st, w, s, kind, claim, open);
    BookkeepStage(next, w, s, kind, claim, open, clock, cfg);
    MarkRun(st, w, FromAccounting(w, clock), cfg);
  }

  lemma SentShape(st: State, w: WorkerId, s: SwapId, kind: SwapKind, claim: Tx, open: Payable)
    requires PhaseOf(st, w) == Committed(s, claim) && Common(st, s, kind, open) && OnTheWay(st, s, claim)
    requires !Conflicts(st.network, claim)
    ensures var st' := DoBroadcast(st, w, true, true);
      && PhaseOf(st', w) == OnNetwork(s, claim, claim) && Common(st', s, kind, open) && OnTheWay(st', s, claim)
      && st'.rows == st.rows && claim in st'.network && (s, claim) in st'.broadcasts
  {
  }

  lemma SendRun(st: State, w: WorkerId, rest: seq<Step>, cfg: Config)
    ensures RunFrom(st, [Broadcast(w, true, true)] + rest, cfg) == RunFrom(DoBroadcast(st, w, true, true), rest, cfg)
  {
    RunCons(st, Broadcast(w, true, true), rest, cfg);
  }

  lemma SendStage(st: State, w: WorkerId, s: SwapId, kind: SwapKind, claim: Tx, open: Payable, clock: int, cfg: Config)
    requires PhaseOf(st, w) == Committed(s, claim) && Common(st, s, kind, open) && OnTheWay(st, s, claim)
    requires !IsTerminal(st.rows[s].status) && !Conflicts(st.network, claim)
    ensures Done(RunFrom(st, FromSending(w, clock), cfg), w, s, kind, claim, open)
  {
    var next := DoBroadcast(st, w, true, true);
    SentShape(st, w, s, kind, claim, open);
    MarkStage(next, w, s, kind, claim, open, clock, cfg);
    var rest := [MarkClaimed(w)] + FromAccounting(w, clock);
    SendRun(st, w, rest, cfg);
  }

  lemma CommittedRowShape(row: SwapRow, snap: SwapRow, claim: Tx, path: Option<ClaimPath>, now: real)
    requires row.claimTx == snap.claimTx && (snap.claimTx.Some? ==> snap.claimTx == Some(claim))
        && IsClaimable(row.status)
    ensures var row' := CommittedRow(row, snap, claim, path, now);
      row'.kind == row.kind && row'.claimTx == Some(claim) && row'.status == ClaimingOf(row.status)
  {
  }

  lemma Commits(st: State, w: WorkerId, s: SwapId, snap: SwapRow, path: Option<ClaimPath>, claim: Tx, open: Payable,
      now: real)
    requires PhaseOf(st, w) == HasTx(s, snap, claim, path) && Common(st, s, snap.kind, open)
    requires st.rows[s].claimTx == snap.claimTx && (snap.claimTx.Some? ==> snap.claimTx == Some(claim))
    requires IsClaimable(st.rows[s].status)
    ensures var st' := DoCommit(st, w, now);
      && PhaseOf(st', w) == Committed(s, claim) && Common(st', s, snap.kind, open) && OnTheWay(st', s, claim)
      && !IsTerminal(st'.rows[s].status) && st'.network == st.network
  {
    CommittedRowShape(st.rows[s], snap, claim, path, now);
  }

  lemma CommitRun(st: State, w: WorkerId, now: real, rest: seq<Step>, cfg: Config)
    ensures RunFrom(st, [Commit(w, now)] + rest, cfg) == RunFrom(DoCommit(st, w, now), rest, cfg)
  {
    RunCons(st, Commit(w, now), rest, cfg);
  }

  lemma CommitStage(st: State, w: WorkerId, s: SwapId, snap: SwapRow, path: Option<ClaimPath>, claim: Tx, open: Payable,
                    now: real, clock: int, cfg: Config)
    requires PhaseOf(st, w) == HasTx(s, snap, claim, path) && Common(st, s, snap.kind, open)
    requires st.rows[s].claimTx == snap.claimTx && (snap.claimTx.Some? ==> snap.claimTx == Some(claim))
    requires IsClaimable(st.rows[s].status) && !Conflicts(st.network, claim)
    ensures Done(RunFrom(st, [Commit(w, now)] + FromSending(w, clock), cfg), w, s, snap.kind, claim, open)
  {
    var next := DoCommit(st, w, now);
    Commits(st, w, s, snap, path, claim, open, now);
    SendStage(next, w, s, snap.kind, claim, open, clock, cfg);
    CommitRun(st, w, now, FromSending(w, clock), cfg);
  }

  /** With or without a persisted transaction the worker comes to hold the claim. */
  lemma Builds(st: State, w: WorkerId, s: SwapId, snap: SwapRow, a: Address, tx: Tx)
    requires PhaseOf(st, w) == HasAddress(s, snap, a) && (snap.claimTx.None? ==> ClaimFor(tx, s, a))
    ensures var st' := DoConstruct(DoUsePersisted(st, w), w, tx);
      && PhaseOf(st', w).HasTx? && PhaseOf(st', w) == HasTx(s, snap, snap.claimTx.GetOr(tx), PhaseOf(st', w).path)
      && st'.rows == st.rows && st'.network == st.network && st'.invoices == st.invoices
  {
    if snap.claimTx.None? {
      assert DoUsePersisted(st, w) == st;
    }
  }

  lemma BuildRun(st: State, w: WorkerId, tx: Tx, rest: seq<Step>, cfg: Config)
    ensures RunFrom(st, [UsePersisted(w)] + ([Construct(w, tx)] + rest), cfg)
         == RunFrom(DoConstruct(DoUsePersisted(st, w), w, tx), rest, cfg)
  {
    RunCons(st, UsePersisted(w), [Construct(w, tx)] + rest, cfg);
    RunCons(DoUsePersisted(st, w), Construct(w, tx), rest, cfg);
  }

  lemma ConstructStage(st: State, w: WorkerId, s: SwapId, snap: SwapRow, a: Address, tx: Tx, open: Payable,
                       now: real, clock: int, cfg: Config)
    requires PhaseOf(st, w) == HasAddress(s, snap, a) && Common(st, s, snap.kind, open)
    requires st.rows[s].claimTx == snap.claimTx && IsClaimable(st.rows[s].status)
    requires (snap.claimTx.None? ==> ClaimFor(tx, s, a)) && !Conflicts(st.network, snap.claimTx.GetOr(tx))
    ensures Done(RunFrom(st, FromBuilding(w, tx, now, clock), cfg), w, s, snap.kind, snap.claimTx.GetOr(tx), open)
  {
    var rest := [Commit(w, now)] + FromSending(w, clock);
    var built := DoConstruct(DoUsePersisted(st, w), w, tx);
    var claim := snap.claimTx.GetOr(tx);
    Builds(st, w, s, snap, a, tx);
    CommitStage(built, w, s, snap, PhaseOf(built, w).path, claim, open, now, clock, cfg);
    BuildRun(st, w, tx, rest, cfg);
  }

  /** Resolving fixes the address `AddressFor` names and nothing else the claim depends on. */
  ghost predicate ResolvedTo(st: State, w: WorkerId, s: SwapId, snap: SwapRow, st': State) {
    && s in st.rows && AddressFor(st, s).Some? && PhaseOf(st', w) == HasAddress(s, snap, AddressFor(st, s).value)
    && s in st'.rows && st'.network == st.network && st'.invoices == st.invoices
    && st'.rows[s] == st.rows[s].(address := if snap.kind.ReverseSwap? then AddressFor(st, s) else st.rows[s].address)
  }

  lemma Resolves(st: State, w: WorkerId, s: SwapId, snap: SwapRow)
    requires s in st.rows && PhaseOf(st, w) == HasRow(s, snap) && snap.kind == st.rows[s].kind
    requires AddressFor(st, s).Some?
    ensures ResolvedTo(st, w, s, snap, DoResolveAddress(st, w))
  {
    match st.rows[s].kind
    case ChainSwap(i, _, _) =>
      assert DoResolveAddress(st, w) == SetPhase(st, w, HasAddress(s, snap, st.liquidAddress[i].value));
    case ReverseSwap(invoice, nym, _) =>
      if st.rows[s].address.None? && invoice.None? {
        var fixed := FixAddress(BumpCursor(st, nym.value), w, s, snap, AddressFor(st, s).value);
        assert DoResolveAddress(st, w) == fixed;
      }
  }

  lemma ResolveStage(st: State, w: WorkerId, s: SwapId, tx: Tx, open: Payable, now: real, clock: int, cfg: Config)
    requires s in st.rows && PhaseOf(st, w) == HasRow(s, st.rows[s]) && Common(st, s, st.rows[s].kind, open)
    requires IsClaimable(st.rows[s].status) && AddressFor(st, s).Some?
    requires st.rows[s].claimTx.None? ==> ClaimFor(tx, s, AddressFor(st, s).value)
    requires !Conflicts(st.network, st.rows[s].claimTx.GetOr(tx))
    ensures Done(RunFrom(st, [ResolveAddress(w)] + FromBuilding(w, tx, now, clock), cfg), w, s, st.rows[s].kind,
                 st.rows[s].claimTx.GetOr(tx), open)
  {
    var next := DoResolveAddress(st, w);
    Resolves(st, w, s, st.rows[s]);
    ConstructStage(next, w, s, st.rows[s], AddressFor(st, s).value, tx, open, now, clock, cfg);
    ResolveRun(st, w, FromBuilding(w, tx, now, clock), cfg);
  }

  /** The lock is free and the row claimable, so the worker gets to the row. */
  lemma Reads(st: State, w: WorkerId, s: SwapId)
    requires PhaseOf(st, w) == Idle && s !in st.locks && s in st.rows && IsClaimable(st.rows[s].status)
    ensures DoReadRow(DoAcquire(st, w, s), w)
         == st.(locks := st.locks[s := w], workers := st.workers[w := Locked(s)][w := HasRow(s, st.rows[s])])
  {
  }

  /** Main result: an uninterrupted claim whose transaction the network takes ends with the row claimed
      under the persisted transaction (the one persisted before, if any), that transaction broadcast and on
      the network, the lock free, nothing left to retry, and the settlement in the ledger of the swap's
      invoice, if that is open to payment. */
  lemma ClaimSucceeds(st: State, w: WorkerId, s: SwapId, tx: Tx, now: real, clock: int, cfg: Config)
    requires CanClaim(st, w, s)
    requires st.rows[s].claimTx.None? ==> ClaimFor(tx, s, AddressFor(st, s).value)
    requires !Conflicts(st.network, st.rows[s].claimTx.GetOr(tx))
    ensures Done(RunFrom(st, WholeClaim(w, s, tx, now, clock), cfg), w, s,
                 st.rows[s].kind, st.rows[s].claimTx.GetOr(tx),
                 PayableBy(st, s, st.rows[s].kind))
  {
    var rest := [ResolveAddress(w)] + FromBuilding(w, tx, now, clock);
    var locked := DoAcquire(st, w, s);
    var read := DoReadRow(locked, w);
    var open := PayableBy(st, s, st.rows[s].kind);
    Reads(st, w, s);
    ResolveStage(read, w, s, tx, open, now, clock, cfg);
    TwoSteps(st, Acquire(w, s), locked, ReadRow(w), read, rest, cfg, w, s, st.rows[s].kind,
        st.rows[s].claimTx.GetOr(tx), open);
  }

  /** The swap is to pay a positive amount to invoice `i`, which is not cancelled and has no event of it. */
  ghost predicate IsToPay(st: State, s: SwapId, i: InvoiceId)
    requires s in st.rows
  {
    && i in st.invoices && st.invoices[i].status != L.Cancelled
    && (match st.rows[s].kind
        case ReverseSwap(invoice, _, amount) =>
          && invoice == Some(i) && amount > 0
          && forall r :: r in st.invoices[i].events ==> r.evidence.eventKey != L.BoltzKey(L.LightningBoltzReverse, s)
        case ChainSwap(invoice, userLock, _) =>
          && invoice == i && userLock > 0
          && forall r :: r in st.invoices[i].events ==> r.evidence.eventKey != L.BoltzKey(L.BitcoinBoltzChain, s))
  }

  /** Main result: the claim then credits that invoice with the swap's own amount, what the user locked up for a
      chain swap, under the claim transaction. */
  lemma ClaimCredits(st: State, w: WorkerId, s: SwapId, i: InvoiceId, tx: Tx, now: real, clock: int, cfg: Config)
    requires CanClaim(st, w, s) && IsToPay(st, s, i)
    requires st.rows[s].claimTx.None? ==> ClaimFor(tx, s, AddressFor(st, s).value)
    requires !Conflicts(st.network, st.rows[s].claimTx.GetOr(tx))
    ensures CreditedIn(RunFrom(st, WholeClaim(w, s, tx, now, clock), cfg), i, s, st.rows[s].kind,
                       st.rows[s].claimTx.GetOr(tx))
  {
    ClaimSucceeds(st, w, s, tx, now, clock, cfg);
    assert Common(st, s, st.rows[s].kind, OpenAndNew);
  }

  /** So whatever a run has come to, one more claim of a swap that can be claimed credits its invoice. */
  lemma RunsCanCredit(steps: seq<Step>, w: WorkerId, s: SwapId, i: InvoiceId, tx: Tx, now: real, clock: int,
                      cfg: Config)
    requires var st := Run(steps, cfg);
      && CanClaim(st, w, s) && IsToPay(st, s, i)
      && (st.rows[s].claimTx.None? ==> ClaimFor(tx, s, AddressFor(st, s).value))
      && !Conflicts(st.network, st.rows[s].claimTx.GetOr(tx))
    ensures var st := Run(steps, cfg);
      CreditedIn(Run(steps + WholeClaim(w, s, tx, now, clock), cfg), i, s, st.rows[s].kind,
                 st.rows[s].claimTx.GetOr(tx))
  {
    ClaimCredits(Run(steps, cfg), w, s, i, tx, now, clock, cfg);
    RunFromIsRun(steps, WholeClaim(w, s, tx, now, clock), cfg);
  }

  // --- A claim that comes too late ---

  /** The steps of a claim up to its commit, with the end of the swap reported right after the read. */
  function LateClaim(w: WorkerId, s: SwapId, tx: Tx, now: real): seq<Step> {
    [Acquire(w, s)] + ([ReadRow(w)] + ([WebhookWrite(s, TransactionFailed)] + ([ResolveAddress(w)]
      + ([Construct(w, tx)] + [Commit(w, now)]))))
  }

  /** The row as it ended, with an address and a claim. */
  ghost predicate EndedWithClaim(st: State, w: WorkerId, s: SwapId, row: SwapRow, a: Address, tx: Tx) {
    && PhaseOf(st, w) == Committed(s, tx) && s in st.rows
    && st.rows[s] == row.(status := Rev(Expired), address := Some(a), claimTx := Some(tx), claimTxid := Some(tx),
                          claimPath := Some(if row.cooperativeRefused then Script else Cooperative))
  }

  lemma BuildAndCommit(st: State, w: WorkerId, tx: Tx, now: real, cfg: Config)
    ensures RunFrom(st, [Construct(w, tx)] + [Commit(w, now)], cfg) == DoCommit(DoConstruct(st, w, tx), w, now)
  {
    RunTwo(st, Construct(w, tx), DoConstruct(st, w, tx), Commit(w, now), DoCommit(DoConstruct(st, w, tx), w, now), cfg);
  }

  lemma LateCommitted(st: State, w: WorkerId, s: SwapId, snap: SwapRow, a: Address, tx: Tx, now: real)
    requires PhaseOf(st, w) == HasAddress(s, snap, a) && snap.kind.ReverseSwap? && snap.claimTx.None?
        && ClaimFor(tx, s, a)
    requires s in st.rows && st.rows[s] == snap.(status := Rev(Expired), address := Some(a))
    ensures EndedWithClaim(DoCommit(DoConstruct(st, w, tx), w, now), w, s, snap, a, tx)
  {
  }

  lemma LateCommit(st: State, w: WorkerId, s: SwapId, snap: SwapRow, a: Address, tx: Tx, now: real, cfg: Config)
    requires PhaseOf(st, w) == HasAddress(s, snap, a) && snap.kind.ReverseSwap? && snap.claimTx.None?
        && ClaimFor(tx, s, a)
    requires s in st.rows && st.rows[s] == snap.(status := Rev(Expired), address := Some(a))
    ensures EndedWithClaim(RunFrom(st, [Construct(w, tx)] + [Commit(w, now)], cfg), w, s, snap, a, tx)
  {
    LateCommitted(st, w, s, snap, a, tx, now);
    BuildAndCommit(st, w, tx, now, cfg);
  }

  lemma ResolveRun(st: State, w: WorkerId, rest: seq<Step>, cfg: Config)
    ensures RunFrom(st, [ResolveAddress(w)] + rest, cfg) == RunFrom(DoResolveAddress(st, w), rest, cfg)
  {
    RunCons(st, ResolveAddress(w), rest, cfg);
  }

  lemma LateResolve(st: State, w: WorkerId, s: SwapId, snap: SwapRow, tx: Tx, now: real, cfg: Config)
    requires PhaseOf(st, w) == HasRow(s, snap) && snap.kind.ReverseSwap? && snap.claimTx.None?
    requires s in st.rows && st.rows[s] == snap.(status := Rev(Expired))
    requires AddressFor(st, s).Some? && ClaimFor(tx, s, AddressFor(st, s).value)
    ensures EndedWithClaim(RunFrom(st, [ResolveAddress(w)] + ([Construct(w, tx)] + [Commit(w, now)]), cfg),
                           w, s, snap, AddressFor(st, s).value, tx)
  {
    Resolves(st, w, s, snap);
    LateCommit(DoResolveAddress(st, w), w, s, snap, AddressFor(st, s).value, tx, now, cfg);
    ResolveRun(st, w, [Construct(w, tx)] + [Commit(w, now)], cfg);
  }

  lemma EndReported(st: State, s: SwapId, cfg: Config)
    requires s in st.rows && st.rows[s].status.Rev? && !IsTerminal(st.rows[s].status)
    ensures Apply(st, WebhookWrite(s, TransactionFailed), cfg) == SetRow(st, s, st.rows[s].(status := Rev(Expired)))
  {
  }

  lemma RunThree(st: State, a: Step, sa: State, b: Step, sb: State, c: Step, sc: State, rest: seq<Step>, cfg: Config)
    requires Apply(st, a, cfg) == sa && Apply(sa, b, cfg) == sb && Apply(sb, c, cfg) == sc
    ensures RunFrom(st, [a] + ([b] + ([c] + rest)), cfg) == RunFrom(sc, rest, cfg)
  {
    RunCons(st, a, [b] + ([c] + rest), cfg);
    RunCons(sa, b, [c] + rest, cfg);
    RunCons(sb, c, rest, cfg);
  }

  /** The state with the row read under the lock and ended since. */
  function ReadThenEnded(st: State, w: WorkerId, s: SwapId): State
    requires s in st.rows
  {
    st.(locks := st.locks[s := w], workers := st.workers[w := Locked(s)][w := HasRow(s, st.rows[s])],
        rows := st.rows[s := st.rows[s].(status := Rev(Expired))])
  }

  lemma ReadThenEndedRun(st: State, w: WorkerId, s: SwapId, rest: seq<Step>, cfg: Config)
    requires PhaseOf(st, w) == Idle && s !in st.locks && s in st.rows
    requires st.rows[s].status.Rev? && IsClaimable(st.rows[s].status)
    ensures RunFrom(st, [Acquire(w, s)] + ([ReadRow(w)] + ([WebhookWrite(s, TransactionFailed)] + rest)), cfg)
         == RunFrom(ReadThenEnded(st, w, s), rest, cfg)
  {
    var locked := DoAcquire(st, w, s);
    var read := DoReadRow(locked, w);
    Reads(st, w, s);
    EndReported(read, s, cfg);
    RunThree(st, Acquire(w, s), locked, ReadRow(w), read, WebhookWrite(s, TransactionFailed), ReadThenEnded(st, w, s),
        rest, cfg);
  }

  /** A swap whose end is reported between a claimer's read and its writes still gains the address and the
      claim transaction: neither write looks at the status, and the status stays as it ended. */
  lemma EndedRowGainsClaim(st: State, w: WorkerId, s: SwapId, tx: Tx, now: real, cfg: Config)
    requires CanClaim(st, w, s) && st.rows[s].kind.ReverseSwap? && st.rows[s].status.Rev? && st.rows[s].claimTx.None?
    requires ClaimFor(tx, s, AddressFor(st, s).value)
    ensures EndedWithClaim(RunFrom(st, LateClaim(w, s, tx, now), cfg), w, s, st.rows[s], AddressFor(st, s).value, tx)
  {
    var rest := [ResolveAddress(w)] + ([Construct(w, tx)] + [Commit(w, now)]);
    LateResolve(ReadThenEnded(st, w, s), w, s, st.rows[s], tx, now, cfg);
    ReadThenEndedRun(st, w, s, rest, cfg);
  }
}
