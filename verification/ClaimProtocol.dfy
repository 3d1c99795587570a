/** The claim protocol as a step system. Any number of webhook and sweep workers race on swap rows
    under a per-swap try-lock; webhooks and the reconciler write rows without it; workers crash
    anywhere; claims pay into the invoice ledgers. Every choice a step leaves open (what the oracle
    constructs, what the network accepts, what a probe reports) is carried by the step itself. */
module ClaimProtocol {
  import opened Base
  import opened Chain
  import opened Swaps
  import L = InvoiceLedger

  type WorkerId = nat

  /** Where a worker is inside `claim_swap` or `claim_chain_swap`. The database transaction that
      holds the advisory lock spans `Locked` to `HasTx`. */
  datatype Phase =
    | Idle
    | Locked(s: SwapId)
    | HasRow(s: SwapId, snap: SwapRow)
    | HasAddress(s: SwapId, snap: SwapRow, addr: Address)
    | HasTx(s: SwapId, snap: SwapRow, tx: Tx, path: Option<ClaimPath>)
    | Committed(s: SwapId, tx: Tx)
    | BroadcastFailed(s: SwapId, tx: Tx)
    | OnNetwork(s: SwapId, tx: Tx, txid: Tx)
    | Marked(s: SwapId, tx: Tx, txid: Tx)
    | Booked(s: SwapId, tx: Tx, txid: Tx)
    | Failing(s: SwapId)

  predicate HoldsLock(p: Phase) {
    p.Locked? || p.HasRow? || p.HasAddress? || p.HasTx?
  }

  datatype User = User(descriptor: string, nextAddrIdx: int)

  datatype State = State(
    rows: map<SwapId, SwapRow>,
    locks: map<SwapId, WorkerId>,
    workers: map<WorkerId, Phase>,
    users: map<string, User>,
    invoices: map<InvoiceId, L.Invoice>,
    liquidAddress: map<InvoiceId, Option<Address>>,
    network: set<Tx>,
    broadcasts: set<(SwapId, Tx)>)

  datatype Config = Config(tol: L.Tolerances, maxAttempts: int)

  function PhaseOf(st: State, w: WorkerId): Phase {
    if w in st.workers then st.workers[w] else Idle
  }

  function InvoiceOf(kind: SwapKind): Option<InvoiceId> {
    match kind
    case ReverseSwap(invoice, _, _) => invoice
    case ChainSwap(invoice, _, _) => Some(invoice)
  }

  function AmountOf(kind: SwapKind): int {
    match kind
    case ReverseSwap(_, _, amount) => amount
    case ChainSwap(_, userLock, _) => userLock
  }

  function SourceOf(kind: SwapKind): L.Source {
    if kind.ReverseSwap? then L.LightningBoltzReverse else L.BitcoinBoltzChain
  }

  /** The evidence the settlement hooks record for a claimed swap. */
  function SettlementEvidence(s: SwapId, kind: SwapKind, txid: Tx): L.Evidence {
    L.Evidence(if kind.ReverseSwap? then L.Lightning else L.Bitcoin, SourceOf(kind), L.BoltzKey(SourceOf(kind), s),
               AmountOf(kind), Some(txid), None, Some(s), None)
  }

  /** What a successful `construct_claim` returns: a transaction that spends only lockup outputs of
      the swap and whose non-empty outputs all pay the claim address. */
  predicate ClaimFor(tx: Tx, s: SwapId, addr: Address) {
    tx.inputs != [] && (forall o :: o in tx.inputs ==> o.Lockup? && o.swap == s)
    && PayTo(addr) in tx.outputs && (forall x :: x in tx.outputs ==> x == FeeScript || x == PayTo(addr))
  }

  predicate Conflicts(network: set<Tx>, tx: Tx) {
    exists t :: t in network && t != tx && exists o :: o in t.inputs && o in tx.inputs
  }

  /** What the probes after a failed broadcast find. */
  datatype Probe = Present | Spender(tx: Tx) | Nothing

  datatype Step =
    // the claim worker
    | Acquire(w: WorkerId, s: SwapId)
    | ReadRow(w: WorkerId)
    | ResolveAddress(w: WorkerId)
    | UsePersisted(w: WorkerId)
    | Construct(w: WorkerId, tx: Tx)
    | CooperativeRefused(w: WorkerId)
    | Commit(w: WorkerId, now: real)
    | Broadcast(w: WorkerId, accepted: bool, reported: bool)
    | ProbeNetwork(w: WorkerId, probe: Probe)
    | MarkClaimed(w: WorkerId)
    | Bookkeep(w: WorkerId, settled: bool, cleared: bool)
    | RecordEvent(w: WorkerId, clock: int)
    | Fail(w: WorkerId)
    | RecordFailure(w: WorkerId, error: string, now: real, u: real, marked: bool)
    | Crash(w: WorkerId)
    // everyone else
    | WebhookWrite(s: SwapId, b: BoltzStatus)
    | ReconcileWrite(s: SwapId, action: Action, now: real)
    | InvoiceWrite(i: InvoiceId, step: L.Step)
    | NewInvoice(i: InvoiceId, invoice: L.Invoice, addr: Option<Address>)
    | NewSwap(s: SwapId, kind: SwapKind, addr: Option<Address>)
    | UserWrite(nym: string, user: User)
    | OtherTx(tx: Tx)

  // --- Pieces of a step ---

  function SetPhase(st: State, w: WorkerId, p: Phase): State {
    st.(workers := st.workers[w := p])
  }

  /** Commit or roll back: the transaction-scoped lock goes. */
  function Release(st: State, w: WorkerId, s: SwapId, p: Phase): State {
    st.(locks := st.locks - {s}, workers := st.workers[w := p])
  }

  function SetRow(st: State, s: SwapId, row: SwapRow): State {
    st.(rows := st.rows[s := row])
  }

  function SetInvoice(st: State, i: InvoiceId, inv: L.Invoice): State {
    st.(invoices := st.invoices[i := inv])
  }

  function SettleInvoice(st: State, kind: SwapKind, to: L.Settlement): State {
    var i := InvoiceOf(kind);
    if i.Some? && i.value in st.invoices then SetInvoice(st, i.value, L.MarkSettlement(st.invoices[i.value], to))
        else st
  }

  // --- What every step keeps, whatever the state ---

  ghost predicate SameClaim(a: SwapRow, b: SwapRow) {
    a.kind == b.kind && a.claimTx == b.claimTx && a.address == b.address && (a.status.Rev? <==> b.status.Rev?)
  }

  /** No webhook or reconciler write touches what a claim depends on. */
  lemma ClaimColumnsUntouched(row: SwapRow, b: BoltzStatus, a: Action, now: real)
    ensures row.status.Rev? ==> SameClaim(row, Webhook(row, b)) && SameClaim(row, ApplyAction(row, a, now))
    ensures row.status.Chn? ==> SameClaim(row, ChainWebhook(row, b))
  {
  }

  /** A swap keeps its kind; its claim transaction, its address and the status it ends with are
      write-once. */
  ghost predicate RowExtends(a: SwapRow, b: SwapRow) {
    b.kind == a.kind && (IsTerminal(a.status) ==> b.status == a.status)
    && (a.claimTx.Some? ==> b.claimTx == a.claimTx) && (a.address.Some? ==> b.address == a.address)
  }

  /** Rows, invoices, their addresses and the network only gain content. */
  ghost predicate Grows(a: State, b: State) {
    && (forall s :: s in a.rows ==> s in b.rows && RowExtends(a.rows[s], b.rows[s]))
    && (forall i :: i in a.liquidAddress ==> i in b.liquidAddress && b.liquidAddress[i] == a.liquidAddress[i])
    && a.network <= b.network && a.invoices.Keys <= b.invoices.Keys
  }

  // --- Worker steps ---

  function DoAcquire(st: State, w: WorkerId, s: SwapId): (st': State)
    ensures Grows(st, st')
  {
    if PhaseOf(st, w) != Idle || s in st.locks then st
    else st.(locks := st.locks[s := w], workers := st.workers[w := Locked(s)])
  }

  function DoReadRow(st: State, w: WorkerId): (st': State)
    ensures Grows(st, st')
  {
    match PhaseOf(st, w)
    case Locked(s) =>
      if s !in st.rows then Release(st, w, s, Failing(s))
      else
        var row := st.rows[s];
        if IsTerminal(row.status) || (row.status.Chn? && !IsClaimable(row.status)) then Release(st, w, s, Idle)
        else SetPhase(st, w, HasRow(s, row))
    case _ => st
  }

  function BumpCursor(st: State, nym: string): State
    requires nym in st.users
  {
    var user := st.users[nym];
    st.(users := st.users[nym := user.(nextAddrIdx := user.nextAddrIdx + 1)])
  }

  /** Write the claim address into the row, in a transaction of its own. */
  function FixAddress(st: State, w: WorkerId, s: SwapId, snap: SwapRow, a: Address): State
    requires s in st.rows
  {
    SetPhase(SetRow(st, s, st.rows[s].(address := Some(a))), w, HasAddress(s, snap, a))
  }

  function DoResolveAddress(st: State, w: WorkerId): (st': State)
    ensures Grows(st, st')
  {
    match PhaseOf(st, w)
    case HasRow(s, snap) =>
      if s !in st.rows then Release(st, w, s, Failing(s))
      else
        var row := st.rows[s];
        (match snap.kind
        case ChainSwap(i, _, _) =>
          if i in st.liquidAddress && st.liquidAddress[i].Some?
          then SetPhase(st, w, HasAddress(s, snap, st.liquidAddress[i].value))
          else Release(st, w, s, Failing(s))
        case ReverseSwap(invoice, nym, _) =>
          if row.address.Some? then SetPhase(st, w, HasAddress(s, snap, row.address.value))
          else if invoice.Some? then
            if invoice.value in st.liquidAddress && st.liquidAddress[invoice.value].Some?
            then FixAddress(st, w, s, snap, st.liquidAddress[invoice.value].value)
            else Release(st, w, s, Failing(s))
          else if nym.Some? && nym.value in st.users && st.users[nym.value].descriptor != ""
                  && st.users[nym.value].nextAddrIdx >= 0
          then FixAddress(BumpCursor(st, nym.value), w, s, snap,
                          Derived(st.users[nym.value].descriptor, st.users[nym.value].nextAddrIdx))
          else Release(st, w, s, Failing(s)))
    case _ => st
  }

  function DoUsePersisted(st: State, w: WorkerId): (st': State)
    ensures Grows(st, st')
  {
    match PhaseOf(st, w)
    case HasAddress(s, snap, addr) =>
      if snap.claimTx.Some? then SetPhase(st, w, HasTx(s, snap, snap.claimTx.value, None)) else st
    case _ => st
  }

  function DoConstruct(st: State, w: WorkerId, tx: Tx): (st': State)
    ensures Grows(st, st')
  {
    match PhaseOf(st, w)
    case HasAddress(s, snap, addr) =>
      if snap.claimTx.None? && ClaimFor(tx, s, addr) then
        var path := if snap.kind.ChainSwap? then None
            else Some(if snap.cooperativeRefused then Script else Cooperative);
        SetPhase(st, w, HasTx(s, snap, tx, path))
      else st
    case _ => st
  }

  function DoCooperativeRefused(st: State, w: WorkerId): (st': State)
    ensures Grows(st, st')
  {
    match PhaseOf(st, w)
    case HasAddress(s, snap, addr) =>
      if snap.claimTx.None? && snap.kind.ReverseSwap? && !snap.cooperativeRefused && s in st.rows
      then Release(SetRow(st, s, MarkCooperativeRefused(st.rows[s])), w, s, Failing(s))
      else st
    case _ => st
  }

  /** The row the commit leaves: the constructed transaction persisted unless one is there, then the
      lease, both against the row as it is now. */
  function CommittedRow(row: SwapRow, snap: SwapRow, tx: Tx, path: Option<ClaimPath>, now: real): SwapRow {
    StartClaiming(if snap.claimTx.None? then Persist(row, tx, path) else row, now)
  }

  function DoCommit(st: State, w: WorkerId, now: real): (st': State)
    ensures Grows(st, st')
  {
    match PhaseOf(st, w)
    case HasTx(s, snap, tx, path) =>
      if s in st.rows
      then Release(SetRow(st, s, CommittedRow(st.rows[s], snap, tx, path, now)), w, s, Committed(s, tx))
      else st
    case _ => st
  }

  /** The transaction leaves the process; the network takes it unless it double-spends, and success
      is reported only for a transaction the network has. */
  function DoBroadcast(st: State, w: WorkerId, accepted: bool, reported: bool): (st': State)
    ensures Grows(st, st')
  {
    match PhaseOf(st, w)
    case Committed(s, tx) =>
      var network := if accepted && !Conflicts(st.network, tx) then st.network + {tx} else st.network;
      var sent := st.(network := network, broadcasts := st.broadcasts + {(s, tx)});
      SetPhase(sent, w, if reported && tx in network then OnNetwork(s, tx, tx) else BroadcastFailed(s, tx))
    case _ => st
  }

  function DoProbe(st: State, w: WorkerId, probe: Probe): (st': State)
    ensures Grows(st, st')
  {
    match PhaseOf(st, w)
    case BroadcastFailed(s, tx) =>
      (match probe
       case Present => if tx in st.network then SetPhase(st, w, OnNetwork(s, tx, tx)) else st
       case Spender(t) =>
         if t in st.network && tx.inputs != [] && tx.inputs[0] in t.inputs then
           SetPhase(st, w, if MatchesClaimDestination(t, tx) then OnNetwork(s, tx, t) else Failing(s))
         else st
       case Nothing => SetPhase(st, w, Failing(s)))
    case _ => st
  }

  function DoMarkClaimed(st: State, w: WorkerId): (st': State)
    ensures Grows(st, st')
  {
    match PhaseOf(st, w)
    case OnNetwork(s, tx, txid) =>
      if s in st.rows
      then SetPhase(SetRow(st, s, UpdateStatus(st.rows[s], ClaimedOf(st.rows[s].status), Some(txid))), w,
          Marked(s, tx, txid))
      else st
    case _ => st
  }

  /** Two best-effort writes; either may fail. */
  function DoBookkeep(st: State, w: WorkerId, settled: bool, cleared: bool): (st': State)
    ensures Grows(st, st')
  {
    match PhaseOf(st, w)
    case Marked(s, tx, txid) =>
      if s in st.rows then
        var st1 := if settled then SettleInvoice(st, st.rows[s].kind, L.Settled) else st;
        var st2 := if cleared then SetRow(st1, s, ClearClaimFailureState(st1.rows[s])) else st1;
        SetPhase(st2, w, Booked(s, tx, txid))
      else st
    case _ => st
  }

  function DoRecordEvent(st: State, w: WorkerId, now: int, tol: L.Tolerances): (st': State)
    ensures Grows(st, st')
  {
    match PhaseOf(st, w)
    case Booked(s, tx, txid) =>
      if s in st.rows then
        var kind := st.rows[s].kind;
        var i := InvoiceOf(kind);
        var st1 := if i.Some? && i.value in st.invoices
                   then SetInvoice(st, i.value,
                       L.Record(st.invoices[i.value], SettlementEvidence(s, kind, txid), tol, now).0)
                   else st;
        SetPhase(st1, w, Idle)
      else st
    case _ => st
  }

  /** Any error return: a rollback when the lock is held. */
  function DoFail(st: State, w: WorkerId): (st': State)
    ensures Grows(st, st')
  {
    var p := PhaseOf(st, w);
    if HoldsLock(p) then Release(st, w, p.s, Failing(p.s))
    else if p.Committed? || p.BroadcastFailed? || p.OnNetwork? then SetPhase(st, w, Failing(p.s))
    else st
  }

  function DoRecordFailure(st: State, w: WorkerId, error: string, max: int, now: real, u: real, marked: bool)
    : (st': State)
    ensures Grows(st, st')
  {
    match PhaseOf(st, w)
    case Failing(s) =>
      if s in st.rows then
        var (row, outcome) := RecordClaimFailure(st.rows[s], error, max, now, u);
        var st1 := SetRow(st, s, row);
        SetPhase(if outcome == Stuck && marked then SettleInvoice(st1, row.kind, L.ClaimStuck) else st1, w, Idle)
      else SetPhase(st, w, Idle)
    case _ => st
  }

  function DoCrash(st: State, w: WorkerId): (st': State)
    ensures Grows(st, st')
  {
    var p := PhaseOf(st, w);
    if HoldsLock(p) then Release(st, w, p.s, Idle) else SetPhase(st, w, Idle)
  }

  // --- Everyone else ---

  /** Evidence the chain watchers record; only claim workers record Boltz settlements. */
  predicate WatcherStep(step: L.Step) {
    step.RecordPayment? ==> !L.IsBoltz(step.evidence.source)
  }

  function DoEnvironment(st: State, step: Step, cfg: Config): (st': State)
    ensures Grows(st, st')
  {
    match step
    case WebhookWrite(s, b) =>
      if s !in st.rows then st
      else
        ClaimColumnsUntouched(st.rows[s], b, Noop, 0.0);
        SetRow(st, s, if st.rows[s].status.Rev? then Webhook(st.rows[s], b) else ChainWebhook(st.rows[s], b))
    case ReconcileWrite(s, a, now) =>
      if s in st.rows && st.rows[s].status.Rev? then
        ClaimColumnsUntouched(st.rows[s], SwapCreated, a, now);
        SetRow(st, s, ApplyAction(st.rows[s], a, now))
      else st
    case InvoiceWrite(i, lstep) =>
      if i in st.invoices && WatcherStep(lstep) then SetInvoice(st, i, L.Apply(st.invoices[i], lstep, cfg.tol)) else st
    case NewInvoice(i, inv, addr) =>
      if i in st.invoices || i in st.liquidAddress || !L.Fresh(inv) then st
      else SetInvoice(st, i, inv).(liquidAddress := st.liquidAddress[i := addr])
    case NewSwap(s, kind, addr) =>
      var i := InvoiceOf(kind);
      if s in st.rows || (i.Some? && i.value !in st.invoices) || (kind.ChainSwap? && addr.Some?) then st
      else
        SetRow(st, s, SwapRow(kind, if kind.ReverseSwap? then Rev(Pending) else Chn(ChainPending), addr,
                              None, None, None, 0, None, None, false))
    case UserWrite(nym, user) => st.(users := st.users[nym := user])
    case OtherTx(tx) => if Conflicts(st.network, tx) then st else st.(network := st.network + {tx})
    case _ => st
  }

  function Apply(st: State, step: Step, cfg: Config): (st': State)
    ensures Grows(st, st')
  {
    match step
    case Acquire(w, s) => DoAcquire(st, w, s)
    case ReadRow(w) => DoReadRow(st, w)
    case ResolveAddress(w) => DoResolveAddress(st, w)
    case UsePersisted(w) => DoUsePersisted(st, w)
    case Construct(w, tx) => DoConstruct(st, w, tx)
    case CooperativeRefused(w) => DoCooperativeRefused(st, w)
    case Commit(w, now) => DoCommit(st, w, now)
    case Broadcast(w, accepted, reported) => DoBroadcast(st, w, accepted, reported)
    case ProbeNetwork(w, probe) => DoProbe(st, w, probe)
    case MarkClaimed(w) => DoMarkClaimed(st, w)
    case Bookkeep(w, settled, cleared) => DoBookkeep(st, w, settled, cleared)
    case RecordEvent(w, now) => DoRecordEvent(st, w, now, cfg.tol)
    case Fail(w) => DoFail(st, w)
    case RecordFailure(w, error, now, u, marked) => DoRecordFailure(st, w, error, cfg.maxAttempts, now, u, marked)
    case Crash(w) => DoCrash(st, w)
    case _ => DoEnvironment(st, step, cfg)
  }

  const EmptyState := State(map[], map[], map[], map[], map[], map[], {}, {})

  function Run(steps: seq<Step>, cfg: Config): State {
    if steps == [] then EmptyState else Apply(Run(steps[..|steps|-1], cfg), steps[|steps|-1], cfg)
  }
}
