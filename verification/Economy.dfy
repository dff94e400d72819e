/**
 * Issuer and broker on one store, as interleaved atomic steps.  Every `/v1/issue` request is
 * a task whose handler can be preempted between any two of: cache lookup, debit, counter bump,
 * each single signature, refund, release, store.  Redeems, receipts, grants, host updates,
 * storage faults and process restarts happen at any point.  A step whose guard is false
 * changes nothing, so every sequence of events is a run.
 */
module Economy {
  import opened Prelude
  import opened Tables
  import opened Idempotency

  type TaskId = nat

  /** An issuer signing key, known by its `key_id`. */
  type KeyId = nat

  /**
   * What a process is started with.  Key and epoch are separate settings: a token verifies by the
   * key it was signed with, and is counted under the epoch of the process that redeems it.
   */
  datatype Served = Served(key: KeyId, epoch: Epoch)

  datatype Reply =
    | Issued(resp: Response)
    | Replayed(resp: Response)
    | KeyConflict
    | Concurrent
    | InsufficientCredits
    | SigningFailed

  datatype Phase =
    | AtBegin
    | AtDebit
    | AtUnpaid                     // debit refused, reservation still held
    | AtObserve                    // debited, `issued` not yet bumped
    | AtSign(sigs: Response)
    | AtRefund                     // a signature failed
    | AtRelease                    // refund attempted, reservation still held
    | Finished(reply: Reply)

  datatype Task = Task(key: RequestKey, hash: BatchHash, amount: nat, phase: Phase)

  /**
   * Auxiliary book-keeping.  What the system does depends on one part of it: `valid` is the outside
   * world's stock of tokens, which the token checks of the redeems read.  The counts of signatures
   * bound what `Unblind` may add to that stock.
   */
  datatype Meter = Meter(
    admin: nat,                        // credits granted by the admin endpoint
    trial: nat,                        // credits granted as trials
    debited: nat,
    refunded: nat,
    clipped: nat,                      // credit lost to saturation at u64::MAX
    bumped: map<Epoch, nat>,           // successful `issued` bumps
    made: map<KeyId, nat>,             // blind signatures computed
    released: map<KeyId, nat>,         // blind signatures put in a stored response
    valid: map<SpendId, KeyId>)        // tokens, with the key they verify under

  /** Per-process book-keeping of the issue endpoint. */
  datatype Log = Log(
    owner: map<RequestKey, TaskId>,    // who holds the reservation
    net: map<RequestKey, nat>,         // debits minus completed refunds
    dropped: map<RequestKey, nat>,     // refunds lost to a storage fault
    first: map<RequestKey, Entry>)     // the response stored first

  datatype State = State(
    db: Tables,
    key: KeyId,
    epoch: Epoch,
    cache: Entries,
    tasks: map<TaskId, Task>,
    meter: Meter,
    log: Log)

  datatype Event =
    | Arrive(id: TaskId, key: RequestKey, hash: BatchHash, amount: nat)
    | Begin(id: TaskId)
    | Debit(id: TaskId, fault: bool)
    | ReleaseUnpaid(id: TaskId)
    | Observe(id: TaskId, fault: bool)
    | Sign(id: TaskId, result: Option<Signature>)
    | Refund(id: TaskId, fault: bool)
    | ReleaseFailed(id: TaskId)
    | StoreResponse(id: TaskId)
    | Unblind(sid: SpendId, under: KeyId)
    | Redeem(sid: SpendId, host: HostAccount, fault: bool)
    | LegacyRedeem(sid: SpendId, fault: bool)
    | Receipt(sid: SpendId, row: ReceiptRow, fault: bool)
    | AdminGrant(account: AccountId, credits: nat, fault: bool)
    | Trial(acct: HostAccount, day: Day, fault: bool)
    | HostUpdate(host: HostAccount, entry: HostEntry)
    | Restart(next: Served)

  /**
   * Which signatures can be turned into tokens, one each: those in a released response (blind
   * signatures as intended), all that were ever computed, or no bound at all (a broken key).
   */
  datatype TokenModel = FromReleased | FromMade | Forgeable

  const NO_LOG: Log := Log(map[], map[], map[], map[])

  function Init(c: Served): State {
    State(EMPTY, c.key, c.epoch, map[], map[], Meter(0, 0, 0, 0, 0, map[], map[], map[], map[]), NO_LOG)
  }

  function Enter(s: State, id: TaskId, p: Phase): map<TaskId, Task>
    requires id in s.tasks
  {
    s.tasks[id := s.tasks[id].(phase := p)]
  }

  ghost predicate MayUnblind(m: TokenModel, s: State, key: KeyId) {
    var have := |Fiber(s.meter.valid, key)|;
    match m
    case FromReleased => have < Get(s.meter.released, key)
    case FromMade => have < Get(s.meter.made, key)
    case Forgeable => true
  }

  predicate TokenVerifies(s: State, sid: SpendId) {
    sid in s.meter.valid && s.meter.valid[sid] == s.key
  }

  /** Credit that a saturating addition of `n` to account `a` drops. */
  function Clip(t: Tables, a: AccountId, n: nat): nat {
    LedgerOf(t, a).balance + n - Min(LedgerOf(t, a).balance + n, U64_MAX)
  }

  // ---- the steps of one issue request ----

  function BeginStep(s: State, id: TaskId): State
    requires id in s.tasks
  {
    var t := s.tasks[id];
    match BeginOutcomeOf(s.cache, t.key, t.hash)
    case Reserved =>
      s.(cache := AfterBegin(s.cache, t.key, t.hash),
         tasks := Enter(s, id, AtDebit),
         log := s.log.(owner := s.log.owner[t.key := id]))
    case Replay(r) => s.(tasks := Enter(s, id, Finished(Replayed(r))))
    case Conflict => s.(tasks := Enter(s, id, Finished(KeyConflict)))
    case InFlight => s.(tasks := Enter(s, id, Finished(Concurrent)))
  }

  function DebitStep(s: State, id: TaskId, fault: bool): State
    requires id in s.tasks
  {
    var t := s.tasks[id];
    if fault || !CanPay(s.db, t.key.account, t.amount) then
      s.(tasks := Enter(s, id, AtUnpaid))
    else
      s.(db := DebitAccount(s.db, t.key.account, t.amount),
         tasks := Enter(s, id, AtObserve),
         meter := s.meter.(debited := s.meter.debited + t.amount),
         log := s.log.(net := Add(s.log.net, t.key, 1)))
  }

  function ObserveStep(s: State, id: TaskId, fault: bool): State
    requires id in s.tasks
  {
    var t := s.tasks[id];
    if fault then s.(tasks := Enter(s, id, AtSign([])))
    else
      s.(db := BumpIssued(s.db, s.epoch, t.amount),
         tasks := Enter(s, id, AtSign([])),
         meter := s.meter.(bumped := Add(s.meter.bumped, s.epoch, t.amount)))
  }

  function SignStep(s: State, id: TaskId, result: Option<Signature>): State
    requires id in s.tasks && s.tasks[id].phase.AtSign?
  {
    match result
    case None => s.(tasks := Enter(s, id, AtRefund))
    case Some(sig) =>
      s.(tasks := Enter(s, id, AtSign(s.tasks[id].phase.sigs + [sig])),
         meter := s.meter.(made := Add(s.meter.made, s.key, 1)))
  }

  function RefundStep(s: State, id: TaskId, fault: bool): State
    requires id in s.tasks
  {
    var t := s.tasks[id];
    if fault then
      s.(tasks := Enter(s, id, AtRelease),
         log := s.log.(dropped := Add(s.log.dropped, t.key, 1)))
    else
      s.(db := CreditAccount(s.db, t.key.account, t.amount),
         tasks := Enter(s, id, AtRelease),
         meter := s.meter.(refunded := s.meter.refunded + t.amount,
                           clipped := s.meter.clipped + Clip(s.db, t.key.account, t.amount)),
         log := s.log.(net := s.log.net[t.key := SatSub(Get(s.log.net, t.key), 1)]))
  }

  function ReleaseStep(s: State, id: TaskId, reply: Reply): State
    requires id in s.tasks
  {
    var k := s.tasks[id].key;
    s.(cache := s.cache - {k},
       tasks := Enter(s, id, Finished(reply)),
       log := s.log.(owner := s.log.owner - {k}))
  }

  function StoreStep(s: State, id: TaskId): State
    requires id in s.tasks && s.tasks[id].phase.AtSign?
  {
    var t := s.tasks[id];
    var done := Done(t.hash, t.phase.sigs);
    s.(cache := s.cache[t.key := done],
       tasks := Enter(s, id, Finished(Issued(t.phase.sigs))),
       meter := s.meter.(released := Add(s.meter.released, s.key, |t.phase.sigs|)),
       log := s.log.(owner := s.log.owner - {t.key},
                     first := if t.key in s.log.first then s.log.first else s.log.first[t.key := done]))
  }

  // ---- grants, receipts and restarts ----

  function ReceiptStep(cfg: Config, s: State, sid: SpendId, row: ReceiptRow): State {
    if IngestOutcomeOf(s.db, sid, row.host).Credited? then
      s.(db := IngestTxn(cfg, s.db, sid, row),
         meter := s.meter.(clipped := s.meter.clipped + Clip(s.db, cfg.fingerprint(row.host), 1)))
    else s
  }

  function AdminStep(s: State, a: AccountId, n: nat): State {
    s.(db := CreditAccount(s.db, a, n),
       meter := s.meter.(admin := s.meter.admin + n, clipped := s.meter.clipped + Clip(s.db, a, n)))
  }

  function TrialStep(cfg: Config, s: State, acct: HostAccount, day: Day): State {
    if TrialOutcomeOf(cfg, s.db, acct, day).Granted? then
      s.(db := TrialTxn(cfg, s.db, acct, day, s.epoch),
         meter := s.meter.(trial := s.meter.trial + cfg.trialGrant,
                           clipped := s.meter.clipped
                                      + Clip(s.db, cfg.fingerprint(acct), cfg.trialGrant)))
    else s
  }

  /** A crash loses the cache and every running request; the store survives. */
  function RestartStep(s: State, next: Served): State {
    s.(key := next.key, epoch := next.epoch, cache := map[], tasks := map[], log := NO_LOG)
  }

  // ---- the transition function ----

  /** Is the event possible now? */
  ghost predicate Enabled(m: TokenModel, s: State, ev: Event) {
    match ev
    case Arrive(id, _, _, _) => id !in s.tasks
    case Begin(id) => id in s.tasks && s.tasks[id].phase.AtBegin?
    case Debit(id, _) => id in s.tasks && s.tasks[id].phase.AtDebit?
    case ReleaseUnpaid(id) => id in s.tasks && s.tasks[id].phase.AtUnpaid?
    case Observe(id, _) => id in s.tasks && s.tasks[id].phase.AtObserve?
    case Sign(id, _) =>
      id in s.tasks && s.tasks[id].phase.AtSign? && |s.tasks[id].phase.sigs| < s.tasks[id].amount
    case Refund(id, _) => id in s.tasks && s.tasks[id].phase.AtRefund?
    case ReleaseFailed(id) => id in s.tasks && s.tasks[id].phase.AtRelease?
    case StoreResponse(id) =>
      id in s.tasks && s.tasks[id].phase.AtSign? && |s.tasks[id].phase.sigs| == s.tasks[id].amount
    case Unblind(sid, key) => sid !in s.meter.valid && MayUnblind(m, s, key)
    case Redeem(sid, _, fault) => TokenVerifies(s, sid) && !fault
    case LegacyRedeem(sid, fault) => TokenVerifies(s, sid) && !fault
    case Receipt(_, _, fault) => !fault
    case AdminGrant(_, _, fault) => !fault
    case Trial(_, _, fault) => !fault
    case HostUpdate(_, _) => true
    case Restart(_) => true
  }

  ghost function Step(cfg: Config, m: TokenModel, s: State, ev: Event): State {
    if !Enabled(m, s, ev) then s
    else match ev
      case Arrive(id, key, hash, amount) =>
        s.(tasks := s.tasks[id := Task(key, hash, amount, AtBegin)])
      case Begin(id) => BeginStep(s, id)
      case Debit(id, fault) => DebitStep(s, id, fault)
      case ReleaseUnpaid(id) => ReleaseStep(s, id, InsufficientCredits)
      case Observe(id, fault) => ObserveStep(s, id, fault)
      case Sign(id, result) => SignStep(s, id, result)
      case Refund(id, fault) => RefundStep(s, id, fault)
      case ReleaseFailed(id) => ReleaseStep(s, id, SigningFailed)
      case StoreResponse(id) => StoreStep(s, id)
      case Unblind(sid, key) => s.(meter := s.meter.(valid := s.meter.valid[sid := key]))
      case Redeem(sid, host, _) => s.(db := SpendTxn(s.db, sid, host, s.epoch))
      case LegacyRedeem(sid, _) => s.(db := LegacyRedeemTxn(s.db, sid, s.epoch))
      case Receipt(sid, row, _) => ReceiptStep(cfg, s, sid, row)
      case AdminGrant(a, n, _) => AdminStep(s, a, n)
      case Trial(acct, day, _) => TrialStep(cfg, s, acct, day)
      case HostUpdate(h, entry) => s.(db := s.db.(hosts := s.db.hosts[h := entry]))
      case Restart(next) => RestartStep(s, next)
  }

  /** The state after the events `evs`, oldest first, from a fresh store served as `c`. */
  ghost function Run(cfg: Config, m: TokenModel, c: Served, evs: seq<Event>): State
    decreases |evs|
  {
    if evs == [] then Init(c)
    else Step(cfg, m, Run(cfg, m, c, evs[..|evs| - 1]), evs[|evs| - 1])
  }

  /** The `issued` bump of a batch is lost to a storage fault. */
  predicate BumpFails(ev: Event) { ev.Observe? && ev.fault }

  /** Events that write no table and move no credit. */
  predicate Quiet(ev: Event) {
    ev.Arrive? || ev.Begin? || ev.ReleaseUnpaid? || ev.Sign? || ev.ReleaseFailed? || ev.StoreResponse?
    || ev.Unblind? || ev.Restart?
  }

  predicate SameMoney(a: Meter, b: Meter) {
    a.admin == b.admin && a.trial == b.trial && a.debited == b.debited && a.refunded == b.refunded
    && a.clipped == b.clipped
  }

  lemma QuietFrame(cfg: Config, m: TokenModel, s: State, ev: Event)
    requires Quiet(ev)
    ensures Step(cfg, m, s, ev).db == s.db
    ensures SameMoney(Step(cfg, m, s, ev).meter, s.meter)
  {}

  /** The transaction an event puts to the store, if it is possible at all. */
  function TxnOf(s: State, ev: Event): Option<Txn> {
    match ev
    case Debit(id, fault) =>
      if id in s.tasks && !fault then Some(TDebit(s.tasks[id].key.account, s.tasks[id].amount)) else None
    case Observe(id, fault) => if id in s.tasks && !fault then Some(TBump(s.epoch, s.tasks[id].amount)) else None
    case Refund(id, fault) =>
      if id in s.tasks && !fault then Some(TGrant(s.tasks[id].key.account, s.tasks[id].amount)) else None
    case Redeem(sid, host, _) => Some(TSpend(sid, host, s.epoch))
    case LegacyRedeem(sid, _) => Some(TLegacy(sid, s.epoch))
    case Receipt(sid, row, _) => Some(TIngest(sid, row))
    case AdminGrant(a, n, _) => Some(TGrant(a, n))
    case Trial(acct, day, _) => Some(TTrial(acct, day, s.epoch))
    case HostUpdate(h, entry) => Some(THost(h, entry))
    case _ => None
  }

  /** A request from outside, well met and without a fault, does reach the store. */
  lemma OutsideReachesStore(cfg: Config, m: TokenModel, s: State, ev: Event)
    requires || ((ev.Receipt? || ev.AdminGrant? || ev.Trial?) && !ev.fault)
             || ((ev.Redeem? || ev.LegacyRedeem?) && !ev.fault
                 && ev.sid in s.meter.valid && s.meter.valid[ev.sid] == s.key)
             || ev.HostUpdate?
    ensures TxnOf(s, ev).Some? && Step(cfg, m, s, ev).db == Apply(cfg, s.db, TxnOf(s, ev).value)
  {}

  /** A step reaches the store only as one of the transactions, so a run is a run of transactions. */
  lemma StepsAreTransactions(cfg: Config, m: TokenModel, s: State, ev: Event)
    ensures Step(cfg, m, s, ev).db
         == if Enabled(m, s, ev) && TxnOf(s, ev).Some? then Apply(cfg, s.db, TxnOf(s, ev).value) else s.db
  {}
}
