/**
 * The books of one account over whole runs.  What goes in and out is read off the events alone: who
 * was granted, who was refunded, whose trial, whose receipt, who was charged.
 */
module AccountBooks {
  import opened Prelude
  import opened Tables
  import opened Economy
  import opened LedgerRows
  import opened SpendChain

  datatype Source = ByAdmin | ByTrial | ByRefund | ByReceipt

  /** What the event `ev`, taken in `s`, pays into account `a`. */
  ghost function Inflow(cfg: Config, s: State, ev: Event, a: AccountId): nat {
    match ev
    case AdminGrant(x, n, fault) => if x == a && !fault then n else 0
    case Trial(acct, day, fault) =>
      if cfg.fingerprint(acct) == a && !fault && acct !in s.db.trialAccts
         && SatAdd(Get(s.db.trialBudget, day), cfg.trialGrant) <= cfg.dailyTrialBudget
      then cfg.trialGrant else 0
    case Refund(id, fault) =>
      if !fault && id in s.tasks && s.tasks[id].phase.AtRefund? && s.tasks[id].key.account == a
      then s.tasks[id].amount else 0
    case Receipt(sid, row, fault) =>
      if CreditsReceipt(s.db, sid, row, fault) && cfg.fingerprint(row.host) == a then 1 else 0
    case _ => 0
  }

  /** A receipt of a registered host for a burned spend that is bound to it and not yet credited. */
  predicate CreditsReceipt(t: Tables, sid: SpendId, row: ReceiptRow, fault: bool) {
    && !fault && row.host in t.hosts && sid in t.spent
    && sid in t.spendHost && t.spendHost[sid] == row.host && sid !in t.receipts
  }

  /** What the event takes out of account `a`. */
  ghost function Outflow(s: State, ev: Event, a: AccountId): nat {
    if ev.Debit? && !ev.fault && ev.id in s.tasks && s.tasks[ev.id].phase.AtDebit?
       && s.tasks[ev.id].key.account == a && s.tasks[ev.id].amount <= LedgerOf(s.db, a).balance
    then s.tasks[ev.id].amount else 0
  }

  predicate Comes(ev: Event, via: Source) {
    match via
    case ByAdmin => ev.AdminGrant?
    case ByTrial => ev.Trial?
    case ByRefund => ev.Refund?
    case ByReceipt => ev.Receipt?
  }

  /** Everything paid into `a` from one source, over a run. */
  ghost function Into(cfg: Config, m: TokenModel, c: Served, evs: seq<Event>, a: AccountId, via: Source): nat
    decreases |evs|
  {
    if evs == [] then 0
    else
      var pre, ev := evs[..|evs| - 1], evs[|evs| - 1];
      Into(cfg, m, c, pre, a, via) + (if Comes(ev, via) then Inflow(cfg, Run(cfg, m, c, pre), ev, a) else 0)
  }

  ghost function AllInto(cfg: Config, m: TokenModel, c: Served, evs: seq<Event>, a: AccountId): nat {
    Into(cfg, m, c, evs, a, ByAdmin) + Into(cfg, m, c, evs, a, ByTrial)
    + Into(cfg, m, c, evs, a, ByRefund) + Into(cfg, m, c, evs, a, ByReceipt)
  }

  ghost function OutOf(cfg: Config, m: TokenModel, c: Served, evs: seq<Event>, a: AccountId): nat
    decreases |evs|
  {
    if evs == [] then 0
    else
      var pre, ev := evs[..|evs| - 1], evs[|evs| - 1];
      OutOf(cfg, m, c, pre, a) + Outflow(Run(cfg, m, c, pre), ev, a)
  }

  /** What saturation at u64::MAX cost the account. */
  ghost function Lost(cfg: Config, m: TokenModel, c: Served, evs: seq<Event>, a: AccountId): nat
    decreases |evs|
  {
    if evs == [] then 0
    else
      var pre, ev := evs[..|evs| - 1], evs[|evs| - 1];
      var s := Run(cfg, m, c, pre);
      var sum := LedgerOf(s.db, a).balance + Inflow(cfg, s, ev, a);
      Lost(cfg, m, c, pre, a) + (if Inflow(cfg, s, ev, a) > 0 && sum > U64_MAX then sum - U64_MAX else 0)
  }

  // ---- one step ----

  /** The row after paying in `came` and taking out `went`. */
  function Moved(row: LedgerRow, came: nat, went: nat): (r: LedgerRow)
    requires went <= row.balance <= U64_MAX
  {
    LedgerRow(SatAdd(row.balance, came) - went, SatAdd(row.earned, came), SatAdd(row.spent, went))
  }

  ghost predicate RowMoves(cfg: Config, m: TokenModel, s: State, ev: Event, a: AccountId) {
    && Outflow(s, ev, a) <= LedgerOf(s.db, a).balance <= U64_MAX
    && LedgerOf(Step(cfg, m, s, ev).db, a) == Moved(LedgerOf(s.db, a), Inflow(cfg, s, ev, a), Outflow(s, ev, a))
  }

  lemma RowStill(row: LedgerRow)
    requires RowInv(row)
    ensures Moved(row, 0, 0) == row
  {}

  lemma RowCredit(row: LedgerRow, n: nat)
    requires RowInv(row)
    ensures Credit(row, n) == Moved(row, n, 0)
  {}

  lemma RowCharge(row: LedgerRow, n: nat)
    requires RowInv(row) && n <= row.balance
    ensures Charge(row, n) == Moved(row, 0, n)
  {}

  lemma CreditAt(t: Tables, x: AccountId, n: nat, a: AccountId)
    ensures LedgerOf(CreditAccount(t, x, n), a) == if x == a then Credit(LedgerOf(t, a), n) else LedgerOf(t, a)
  {}

  lemma DebitAt(t: Tables, x: AccountId, n: nat, a: AccountId)
    requires CanPay(t, x, n)
    ensures LedgerOf(DebitAccount(t, x, n), a) == if x == a then Charge(LedgerOf(t, a), n) else LedgerOf(t, a)
  {}

  lemma TrialAt(cfg: Config, t: Tables, acct: HostAccount, day: Day, e: Epoch, a: AccountId)
    ensures LedgerOf(TrialTxn(cfg, t, acct, day, e), a)
         == if TrialOutcomeOf(cfg, t, acct, day).Granted? && cfg.fingerprint(acct) == a
            then Credit(LedgerOf(t, a), cfg.trialGrant) else LedgerOf(t, a)
  {}

  lemma IngestAt(cfg: Config, t: Tables, sid: SpendId, row: ReceiptRow, a: AccountId)
    ensures LedgerOf(IngestTxn(cfg, t, sid, row), a)
         == if CreditsReceipt(t, sid, row, false) && cfg.fingerprint(row.host) == a
            then Credit(LedgerOf(t, a), 1) else LedgerOf(t, a)
  {}

  lemma DebitMoves(cfg: Config, m: TokenModel, s: State, ev: Event, a: AccountId)
    requires RowInv(LedgerOf(s.db, a)) && ev.Debit?
    ensures RowMoves(cfg, m, s, ev, a)
  {
    RowStill(LedgerOf(s.db, a));
    if Enabled(m, s, ev) {
      var t := s.tasks[ev.id];
      if CanPay(s.db, t.key.account, t.amount) {
        DebitAt(s.db, t.key.account, t.amount, a);
        if t.key.account == a { RowCharge(LedgerOf(s.db, a), t.amount); }
      }
    }
  }

  lemma RefundMoves(cfg: Config, m: TokenModel, s: State, ev: Event, a: AccountId)
    requires RowInv(LedgerOf(s.db, a)) && ev.Refund?
    ensures RowMoves(cfg, m, s, ev, a)
  {
    RowStill(LedgerOf(s.db, a));
    if Enabled(m, s, ev) {
      CreditAt(s.db, s.tasks[ev.id].key.account, s.tasks[ev.id].amount, a);
      RowCredit(LedgerOf(s.db, a), s.tasks[ev.id].amount);
    }
  }

  lemma ReceiptMoves(cfg: Config, m: TokenModel, s: State, ev: Event, a: AccountId)
    requires RowInv(LedgerOf(s.db, a)) && ev.Receipt?
    ensures RowMoves(cfg, m, s, ev, a)
  {
    RowStill(LedgerOf(s.db, a));
    IngestAt(cfg, s.db, ev.sid, ev.row, a);
    RowCredit(LedgerOf(s.db, a), 1);
  }

  lemma AdminMoves(cfg: Config, m: TokenModel, s: State, ev: Event, a: AccountId)
    requires RowInv(LedgerOf(s.db, a)) && ev.AdminGrant?
    ensures RowMoves(cfg, m, s, ev, a)
  {
    RowStill(LedgerOf(s.db, a));
    CreditAt(s.db, ev.account, ev.credits, a);
    RowCredit(LedgerOf(s.db, a), ev.credits);
  }

  lemma TrialMoves(cfg: Config, m: TokenModel, s: State, ev: Event, a: AccountId)
    requires RowInv(LedgerOf(s.db, a)) && ev.Trial?
    ensures RowMoves(cfg, m, s, ev, a)
  {
    RowStill(LedgerOf(s.db, a));
    TrialAt(cfg, s.db, ev.acct, ev.day, s.epoch, a);
    RowCredit(LedgerOf(s.db, a), cfg.trialGrant);
    TrialReaches(cfg, m, s, ev);
  }

  lemma LedgerFrame(cfg: Config, m: TokenModel, s: State, ev: Event)
    requires !ev.Debit? && !ev.Refund? && !ev.Receipt? && !ev.AdminGrant? && !ev.Trial?
    ensures Step(cfg, m, s, ev).db.ledger == s.db.ledger
  {
    if Quiet(ev) { QuietFrame(cfg, m, s, ev); }
  }

  lemma TrialReaches(cfg: Config, m: TokenModel, s: State, ev: Event)
    requires ev.Trial?
    ensures Step(cfg, m, s, ev).db == if ev.fault then s.db else TrialTxn(cfg, s.db, ev.acct, ev.day, s.epoch)
  {}

  lemma OtherMoves(cfg: Config, m: TokenModel, s: State, ev: Event, a: AccountId)
    requires RowInv(LedgerOf(s.db, a))
    requires !ev.Debit? && !ev.Refund? && !ev.Receipt? && !ev.AdminGrant? && !ev.Trial?
    ensures RowMoves(cfg, m, s, ev, a)
  {
    LedgerFrame(cfg, m, s, ev);
    StillMoves(s.db, Step(cfg, m, s, ev).db, a);
    assert Inflow(cfg, s, ev, a) == 0 && Outflow(s, ev, a) == 0;
  }

  lemma StillMoves(t: Tables, t': Tables, a: AccountId)
    requires RowInv(LedgerOf(t, a)) && t'.ledger == t.ledger
    ensures LedgerOf(t, a).balance <= U64_MAX && LedgerOf(t', a) == Moved(LedgerOf(t, a), 0, 0)
  {}

  /** Each step changes the row of each account by what it pays in and takes out, and by nothing else. */
  lemma RowStep(cfg: Config, m: TokenModel, s: State, ev: Event, a: AccountId)
    requires RowInv(LedgerOf(s.db, a))
    ensures RowMoves(cfg, m, s, ev, a)
  {
    if ev.Debit? {
      DebitMoves(cfg, m, s, ev, a);
    } else if ev.Refund? {
      RefundMoves(cfg, m, s, ev, a);
    } else if ev.Receipt? {
      ReceiptMoves(cfg, m, s, ev, a);
    } else if ev.AdminGrant? {
      AdminMoves(cfg, m, s, ev, a);
    } else if ev.Trial? {
      TrialMoves(cfg, m, s, ev, a);
    } else {
      OtherMoves(cfg, m, s, ev, a);
    }
  }

  // ---- whole runs ----

  ghost predicate Books(cfg: Config, m: TokenModel, c: Served, evs: seq<Event>, a: AccountId) {
    var row, came, went := LedgerOf(Run(cfg, m, c, evs).db, a), AllInto(cfg, m, c, evs, a), OutOf(cfg, m, c, evs, a);
    && row.balance + went + Lost(cfg, m, c, evs, a) == came
    && row.earned == Min(came, U64_MAX)
    && row.spent == Min(went, U64_MAX)
    && (came <= U64_MAX ==> Lost(cfg, m, c, evs, a) == 0)
  }

  lemma FlowsAdd(cfg: Config, m: TokenModel, c: Served, evs: seq<Event>, a: AccountId)
    requires evs != []
    ensures var pre, ev := evs[..|evs| - 1], evs[|evs| - 1];
      AllInto(cfg, m, c, evs, a) == AllInto(cfg, m, c, pre, a) + Inflow(cfg, Run(cfg, m, c, pre), ev, a)
  {}

  /** What saturation costs when `came` is paid into `row`. */
  function Clipped(row: LedgerRow, came: nat): nat {
    if came > 0 && row.balance + came > U64_MAX then row.balance + came - U64_MAX else 0
  }

  /** The three columns carried over one movement. */
  lemma Carried(row: LedgerRow, came: nat, went: nat, paid: nat, taken: nat, lost: nat)
    requires RowInv(row) && went <= row.balance && row.balance + taken + lost == paid
    requires row.earned == Min(paid, U64_MAX) && row.spent == Min(taken, U64_MAX) && (paid <= U64_MAX ==> lost == 0)
    ensures var r := Moved(row, came, went);
      && r.balance + (taken + went) + (lost + Clipped(row, came)) == paid + came
      && r.earned == Min(paid + came, U64_MAX) && r.spent == Min(taken + went, U64_MAX)
      && (paid + came <= U64_MAX ==> lost + Clipped(row, came) == 0)
  {}

  /** No event both pays in and takes out. */
  lemma OneWay(cfg: Config, s: State, ev: Event, a: AccountId)
    ensures Inflow(cfg, s, ev, a) == 0 || Outflow(s, ev, a) == 0
  {}

  /**
   * The books of every account, in every run: the balance is what came in, less what went out, less what
   * saturation cost; lifetime earnings and spending are the two totals, up to saturation.
   */
  lemma {:induction false} EveryAccountBalances(cfg: Config, m: TokenModel, c: Served, evs: seq<Event>, a: AccountId)
    ensures Books(cfg, m, c, evs, a)
    decreases |evs|
  {
    if evs != [] {
      var pre, ev := evs[..|evs| - 1], evs[|evs| - 1];
      EveryAccountBalances(cfg, m, c, pre, a);
      LedgerInvAlways(cfg, m, c, pre);
      var s := Run(cfg, m, c, pre);
      var row := LedgerOf(s.db, a);
      assert RowInv(row);
      RowStep(cfg, m, s, ev, a);
      FlowsAdd(cfg, m, c, evs, a);
      Carried(row, Inflow(cfg, s, ev, a), Outflow(s, ev, a), AllInto(cfg, m, c, pre, a), OutOf(cfg, m, c, pre, a),
              Lost(cfg, m, c, pre, a));
      OneWay(cfg, s, ev, a);
    }
  }

  // ---- receipts and trials are in the tables ----

  /** The ledger account each credited spend was paid to. */
  ghost function Payees(cfg: Config, t: Tables): map<SpendId, AccountId> {
    map sid | sid in t.receipts :: cfg.fingerprint(t.receipts[sid].host)
  }

  lemma PayeesStep(cfg: Config, m: TokenModel, s: State, ev: Event, a: AccountId)
    ensures |Fiber(Payees(cfg, Step(cfg, m, s, ev).db), a)|
         == |Fiber(Payees(cfg, s.db), a)| + (if ev.Receipt? then Inflow(cfg, s, ev, a) else 0)
  {
    var t, t' := s.db, Step(cfg, m, s, ev).db;
    if ev.Receipt? && CreditsReceipt(t, ev.sid, ev.row, ev.fault) {
      assert t'.receipts == t.receipts[ev.sid := ev.row];
      assert Payees(cfg, t') == Payees(cfg, t)[ev.sid := cfg.fingerprint(ev.row.host)];
      FiberInsert(Payees(cfg, t), ev.sid, cfg.fingerprint(ev.row.host));
    } else {
      if !ev.Receipt? { ReceiptsFrame(cfg, m, s, ev); }
      assert Payees(cfg, t') == Payees(cfg, t);
    }
  }

  lemma ReceiptsFrame(cfg: Config, m: TokenModel, s: State, ev: Event)
    requires !ev.Receipt?
    ensures Step(cfg, m, s, ev).db.receipts == s.db.receipts
  {
    if !ev.Redeem? && !ev.LegacyRedeem? { OtherStepsFrame(cfg, m, s, ev); }
  }

  /** The receipts that paid `a` are those in the table whose host has fingerprint `a`, one credit each. */
  lemma {:induction false} ReceiptsPaid(cfg: Config, m: TokenModel, c: Served, evs: seq<Event>, a: AccountId)
    ensures Into(cfg, m, c, evs, a, ByReceipt) == |Fiber(Payees(cfg, Run(cfg, m, c, evs).db), a)|
    decreases |evs|
  {
    if evs == [] {
      assert Fiber(Payees(cfg, Run(cfg, m, c, evs).db), a) == {};
    } else {
      ReceiptsPaid(cfg, m, c, evs[..|evs| - 1], a);
      PayeesStep(cfg, m, Run(cfg, m, c, evs[..|evs| - 1]), evs[|evs| - 1], a);
    }
  }

  /**
   * Conservation, account by account: balance, debits and saturation loss of `a` together are its admin
   * grants, its trial grants, its refunds, and one credit for each receipt of a host it belongs to.
   */
  lemma AccountConservation(cfg: Config, m: TokenModel, c: Served, evs: seq<Event>, a: AccountId)
    ensures var t := Run(cfg, m, c, evs).db;
      LedgerOf(t, a).balance + OutOf(cfg, m, c, evs, a) + Lost(cfg, m, c, evs, a)
        == Into(cfg, m, c, evs, a, ByAdmin) + Into(cfg, m, c, evs, a, ByTrial)
           + Into(cfg, m, c, evs, a, ByRefund) + |Fiber(Payees(cfg, t), a)|
  {
    EveryAccountBalances(cfg, m, c, evs, a);
    ReceiptsPaid(cfg, m, c, evs, a);
  }
}
