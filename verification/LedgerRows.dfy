/** What saturation does, and does not do, to a ledger row over all four writers. */
module LedgerRows {
  import opened Prelude
  import opened Tables
  import opened Economy

  /** Balanced books: exact until `earned` saturates, one-sided ever after. */
  predicate RowInv(r: LedgerRow) {
    && r.balance <= r.earned <= U64_MAX
    && r.earned <= r.balance + r.spent
    && r.spent <= U64_MAX
    && (r.earned < U64_MAX ==> r.earned == r.balance + r.spent)
  }

  ghost predicate LedgerInv(t: Tables) { forall a :: a in t.ledger ==> RowInv(t.ledger[a]) }

  lemma CreditKeeps(t: Tables, a: AccountId, n: nat)
    requires LedgerInv(t)
    ensures LedgerInv(CreditAccount(t, a, n))
  {
    assert RowInv(LedgerOf(t, a));
    assert RowInv(Credit(LedgerOf(t, a), n));
  }

  lemma ChargeKeeps(t: Tables, a: AccountId, n: nat)
    requires LedgerInv(t) && CanPay(t, a, n)
    ensures LedgerInv(DebitAccount(t, a, n))
  {
    assert RowInv(LedgerOf(t, a));
    assert RowInv(Charge(LedgerOf(t, a), n));
  }

  lemma LedgerInvStep(cfg: Config, m: TokenModel, s: State, ev: Event)
    requires LedgerInv(s.db)
    ensures LedgerInv(Step(cfg, m, s, ev).db)
  {
    if Enabled(m, s, ev) {
      match ev
      case Debit(id, fault) =>
        var t := s.tasks[id];
        if CanPay(s.db, t.key.account, t.amount) { ChargeKeeps(s.db, t.key.account, t.amount); }
      case Refund(id, fault) => CreditKeeps(s.db, s.tasks[id].key.account, s.tasks[id].amount);
      case Receipt(sid, row, _) =>
        CreditKeeps(s.db.(receipts := s.db.receipts[sid := row]), cfg.fingerprint(row.host), 1);
      case AdminGrant(a, n, _) => CreditKeeps(s.db, a, n);
      case Trial(acct, day, _) => CreditKeeps(s.db, cfg.fingerprint(acct), cfg.trialGrant);
      case _ =>
    }
  }

  lemma {:induction false} LedgerInvAlways(cfg: Config, m: TokenModel, c: Served, evs: seq<Event>)
    ensures LedgerInv(Run(cfg, m, c, evs).db)
    decreases |evs|
  {
    if evs != [] {
      LedgerInvAlways(cfg, m, c, evs[..|evs| - 1]);
      LedgerInvStep(cfg, m, Run(cfg, m, c, evs[..|evs| - 1]), evs[|evs| - 1]);
    }
  }

  /** For every account of every run: balance <= earned <= balance + spent, exactly equal below u64::MAX. */
  lemma BooksBalance(cfg: Config, m: TokenModel, c: Served, evs: seq<Event>, a: AccountId)
    ensures var r := LedgerOf(Run(cfg, m, c, evs).db, a);
      && r.balance <= r.earned <= r.balance + r.spent
      && (r.earned < U64_MAX ==> r.earned == r.balance + r.spent)
  {
    LedgerInvAlways(cfg, m, c, evs);
  }
}
