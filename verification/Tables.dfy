/**
 * The eight durable tables and every write transaction on them, as values.
 * A transaction maps the committed tables to the tables it would commit; an aborted
 * transaction maps them to themselves.  32-byte identifiers are opaque naturals here.
 */
module Tables {
  import opened Prelude

  type AccountId = nat
  type HostAccount = nat
  type SpendId = nat
  type Epoch = nat
  type Day = nat

  datatype LedgerRow = LedgerRow(balance: nat, earned: nat, spent: nat)
  datatype CounterRow = CounterRow(issued: nat, redeemed: nat, trialGranted: nat)
  datatype ReceiptRow = ReceiptRow(host: HostAccount, units: nat, epoch: nat)
  datatype HostEntry = HostEntry(active: bool, ingressAddr: string)

  datatype Tables = Tables(
    spent: map<SpendId, Epoch>,
    ledger: map<AccountId, LedgerRow>,
    receipts: map<SpendId, ReceiptRow>,
    hosts: map<HostAccount, HostEntry>,
    counters: map<Epoch, CounterRow>,
    trialAccts: map<HostAccount, Day>,
    trialBudget: map<Day, nat>,
    spendHost: map<SpendId, HostAccount>)

  const EMPTY: Tables := Tables(map[], map[], map[], map[], map[], map[], map[], map[])

  /** Policy knobs; `fingerprint` is the (opaque) hash from public keys to ledger accounts. */
  datatype Config = Config(
    fingerprint: HostAccount -> AccountId,
    trialGrant: nat,
    dailyTrialBudget: nat,
    unitsAuditCap: nat)

  function LedgerOf(t: Tables, a: AccountId): LedgerRow {
    if a in t.ledger then t.ledger[a] else LedgerRow(0, 0, 0)
  }

  function CounterOf(t: Tables, e: Epoch): CounterRow {
    if e in t.counters then t.counters[e] else CounterRow(0, 0, 0)
  }

  // ---- the ledger rows ----

  function Credit(row: LedgerRow, n: nat): LedgerRow {
    row.(balance := SatAdd(row.balance, n), earned := SatAdd(row.earned, n))
  }

  function Charge(row: LedgerRow, n: nat): LedgerRow
    requires n <= row.balance
  {
    row.(balance := row.balance - n, spent := SatAdd(row.spent, n))
  }

  function CreditAccount(t: Tables, a: AccountId, n: nat): Tables {
    t.(ledger := t.ledger[a := Credit(LedgerOf(t, a), n)])
  }

  predicate CanPay(t: Tables, a: AccountId, n: nat) { n <= LedgerOf(t, a).balance }

  function DebitAccount(t: Tables, a: AccountId, n: nat): Tables
    requires CanPay(t, a, n)
  {
    t.(ledger := t.ledger[a := Charge(LedgerOf(t, a), n)])
  }

  // ---- the counters ----

  function BumpIssued(t: Tables, e: Epoch, n: nat): Tables {
    var c := CounterOf(t, e);
    t.(counters := t.counters[e := c.(issued := SatAdd(c.issued, n))])
  }

  function NoteRedeem(t: Tables, e: Epoch): Tables {
    var c := CounterOf(t, e);
    t.(counters := t.counters[e := c.(redeemed := SatAdd(c.redeemed, 1))])
  }

  predicate InvariantHolds(t: Tables, e: Epoch) { CounterOf(t, e).redeemed <= CounterOf(t, e).issued }

  // ---- redeem ----

  datatype SpendOutcome = Spent | AlreadySpent | Refused

  /** Would one more redeem of epoch `e` stay within the issued count? */
  predicate TripwireClear(t: Tables, e: Epoch) { InvariantHolds(NoteRedeem(t, e), e) }

  function SpendOutcomeOf(t: Tables, s: SpendId, e: Epoch): SpendOutcome {
    if s in t.spent then AlreadySpent else if TripwireClear(t, e) then Spent else Refused
  }

  function SpendTxn(t: Tables, s: SpendId, h: HostAccount, e: Epoch): Tables {
    if SpendOutcomeOf(t, s, e).Spent? then
      NoteRedeem(t.(spent := t.spent[s := e], spendHost := t.spendHost[s := h]), e)
    else t
  }

  /** The issuer's legacy redeem: burns the token without a host binding or a counter. */
  function LegacyRedeemTxn(t: Tables, s: SpendId, e: Epoch): Tables {
    if s in t.spent then t else t.(spent := t.spent[s := e])
  }

  // ---- receipts ----

  datatype IngestOutcome = Credited | AlreadyCredited | UnknownHost | BadRequest | BadSignature
                         | NoBurnedSpend | WrongHost | OverCap

  function IngestOutcomeOf(t: Tables, s: SpendId, h: HostAccount): IngestOutcome {
    if h !in t.hosts then UnknownHost
    else if s !in t.spent then NoBurnedSpend
    else if s !in t.spendHost || t.spendHost[s] != h then WrongHost
    else if s in t.receipts then AlreadyCredited
    else Credited
  }

  function IngestTxn(cfg: Config, t: Tables, s: SpendId, row: ReceiptRow): Tables {
    if IngestOutcomeOf(t, s, row.host).Credited? then
      CreditAccount(t.(receipts := t.receipts[s := row]), cfg.fingerprint(row.host), 1)
    else t
  }

  // ---- trial grants ----

  datatype TrialOutcome = Granted | AlreadyGranted | BudgetExhausted | BadPow | BadTrialRequest

  function TrialOutcomeOf(cfg: Config, t: Tables, acct: HostAccount, day: Day): TrialOutcome {
    if acct in t.trialAccts then AlreadyGranted
    else if SatAdd(Get(t.trialBudget, day), cfg.trialGrant) > cfg.dailyTrialBudget then BudgetExhausted
    else Granted
  }

  function TrialTxn(cfg: Config, t: Tables, acct: HostAccount, day: Day, e: Epoch): Tables {
    if TrialOutcomeOf(cfg, t, acct, day).Granted? then
      var c := CounterOf(t, e);
      CreditAccount(
        t.(trialAccts := t.trialAccts[acct := day],
           trialBudget := t.trialBudget[day := SatAdd(Get(t.trialBudget, day), cfg.trialGrant)],
           counters := t.counters[e := c.(trialGranted := SatAdd(c.trialGranted, cfg.trialGrant))]),
        cfg.fingerprint(acct), cfg.trialGrant)
    else t
  }

  // ---- any transaction ----

  datatype Txn =
    | TGrant(a: AccountId, n: nat)
    | TDebit(a: AccountId, n: nat)
    | TBump(e: Epoch, n: nat)
    | TSpend(sid: SpendId, host: HostAccount, e: Epoch)
    | TLegacy(sid: SpendId, e: Epoch)
    | TIngest(sid: SpendId, row: ReceiptRow)
    | TTrial(acct: HostAccount, day: Day, e: Epoch)
    | THost(host: HostAccount, entry: HostEntry)

  function Apply(cfg: Config, t: Tables, x: Txn): Tables {
    match x
    case TGrant(a, n) => CreditAccount(t, a, n)
    case TDebit(a, n) => if CanPay(t, a, n) then DebitAccount(t, a, n) else t
    case TBump(e, n) => BumpIssued(t, e, n)
    case TSpend(sid, host, e) => SpendTxn(t, sid, host, e)
    case TLegacy(sid, e) => LegacyRedeemTxn(t, sid, e)
    case TIngest(sid, row) => IngestTxn(cfg, t, sid, row)
    case TTrial(acct, day, e) => TrialTxn(cfg, t, acct, day, e)
    case THost(h, entry) => t.(hosts := t.hosts[h := entry])
  }

  function ApplyAll(cfg: Config, t: Tables, xs: seq<Txn>): Tables
    decreases |xs|
  {
    if xs == [] then t else ApplyAll(cfg, Apply(cfg, t, xs[0]), xs[1..])
  }
}
