/**
 * The durable store.  Each method is one write transaction: it edits a working copy table by
 * table and either commits the copy or drops it.  `fault` says that the database failed the
 * transaction, which then fails closed.
 */
module DurableStore {
  import opened Prelude
  import opened Tables
  import opened LedgerRows
  import opened SpendChain

  /** A receipt as submitted: shape and signature verdicts come from the wire and crypto layers. */
  datatype ReceiptSubmit = ReceiptSubmit(sid: SpendId, row: ReceiptRow, wellFormed: bool, signed: bool)

  ghost predicate Sound(t: Tables) { LedgerInv(t) && SpendInv(t) }

  lemma BalanceFits(t: Tables, a: AccountId)
    requires Sound(t)
    ensures LedgerOf(t, a).balance <= U64_MAX
  {
    assert RowInv(LedgerOf(t, a));
  }

  lemma GrantSound(t: Tables, a: AccountId, n: nat)
    requires Sound(t)
    ensures Sound(CreditAccount(t, a, n))
  {
    CreditKeeps(t, a, n);
    SameCounts(t, CreditAccount(t, a, n));
  }

  lemma DebitSound(t: Tables, a: AccountId, n: nat)
    requires Sound(t) && CanPay(t, a, n)
    ensures Sound(DebitAccount(t, a, n))
  {
    ChargeKeeps(t, a, n);
    SameCounts(t, DebitAccount(t, a, n));
  }

  lemma BumpSound(t: Tables, e: Epoch, n: nat)
    requires Sound(t)
    ensures Sound(BumpIssued(t, e, n))
  {
    BumpOnlyIssues(t, e, n);
    SameCounts(t, BumpIssued(t, e, n));
  }

  lemma IngestSound(cfg: Config, t: Tables, s: SpendId, row: ReceiptRow)
    requires Sound(t)
    ensures Sound(IngestTxn(cfg, t, s, row))
  {
    IngestKeeps(cfg, t, s, row);
    CreditKeeps(t.(receipts := t.receipts[s := row]), cfg.fingerprint(row.host), 1);
  }

  lemma TrialSound(cfg: Config, t: Tables, acct: HostAccount, day: Day, e: Epoch)
    requires Sound(t)
    ensures Sound(TrialTxn(cfg, t, acct, day, e))
  {
    TrialOnlyIssues(cfg, t, acct, day, e);
    SameCounts(t, TrialTxn(cfg, t, acct, day, e));
    CreditKeeps(t, cfg.fingerprint(acct), cfg.trialGrant);
  }

  lemma ApplySound(cfg: Config, t: Tables, x: Txn)
    requires Sound(t)
    ensures Sound(Apply(cfg, t, x))
  {
    match x
    case TGrant(a, n) => GrantSound(t, a, n);
    case TDebit(a, n) => if CanPay(t, a, n) { DebitSound(t, a, n); }
    case TBump(e, n) => BumpSound(t, e, n);
    case TSpend(sid, host, e) => SpendKeeps(t, sid, host, e);
    case TLegacy(sid, e) => LegacyKeeps(t, sid, e);
    case TIngest(sid, row) => IngestSound(cfg, t, sid, row);
    case TTrial(acct, day, e) => TrialSound(cfg, t, acct, day, e);
    case THost(h, entry) => SameCounts(t, t.(hosts := t.hosts[h := entry]));
  }

  lemma {:induction false} ApplyAllSound(cfg: Config, t: Tables, xs: seq<Txn>)
    requires Sound(t)
    ensures Sound(ApplyAll(cfg, t, xs))
    decreases |xs|
  {
    if xs != [] {
      ApplySound(cfg, t, xs[0]);
      ApplyAllSound(cfg, Apply(cfg, t, xs[0]), xs[1..]);
    }
  }

  class Store {
    var db: Tables

    constructor ()
      ensures db == EMPTY && Valid()
    {
      db := EMPTY;
      new;
      assert BoundEpochs(EMPTY) == map[];
      forall d ensures BoundCount(EMPTY, d) == 0 {
        assert Fiber(BoundEpochs(EMPTY), d) == {};
      }
    }

    /** What every transaction keeps: balanced ledger rows and a sound spend chain. */
    ghost predicate Valid()
      reads this
    {
      Sound(db)
    }

    /** The largest amount a debit would accept; never overstated, and zero on a fault. */
    method Balance(a: AccountId, fault: bool) returns (b: nat)
      requires Valid()
      ensures CanPay(db, a, b) && b <= U64_MAX
      ensures !fault ==> forall n: nat :: CanPay(db, a, n) <==> n <= b
      ensures fault ==> b == 0
    {
      if fault || a !in db.ledger { return 0; }
      BalanceFits(db, a);
      return db.ledger[a].balance;
    }

    method Grant(a: AccountId, amount: nat, fault: bool)
      requires Valid()
      modifies this
      ensures Valid()
      ensures db == if fault then old(db) else CreditAccount(old(db), a, amount)
      // in plain terms: one row, two columns
      ensures var was := LedgerOf(old(db), a);
        !fault ==>
          db == old(db).(ledger := old(db).ledger[a :=
            LedgerRow(SatAdd(was.balance, amount), SatAdd(was.earned, amount), was.spent)])
    {
      if fault { return; }
      var row := if a in db.ledger then db.ledger[a] else LedgerRow(0, 0, 0);
      row := row.(balance := SatAdd(row.balance, amount));
      row := row.(earned := SatAdd(row.earned, amount));
      GrantSound(db, a, amount);
      db := db.(ledger := db.ledger[a := row]);
    }

    method Debit(a: AccountId, amount: nat, fault: bool) returns (ok: bool)
      requires Valid()
      modifies this
      ensures Valid()
      ensures ok <==> !fault && CanPay(old(db), a, amount)
      ensures db == if ok then DebitAccount(old(db), a, amount) else old(db)
      // in plain terms: what is there can be paid, from one row
      ensures ok <==> !fault && amount <= LedgerOf(old(db), a).balance
      ensures var was := LedgerOf(old(db), a);
        ok ==>
          db == old(db).(ledger := old(db).ledger[a :=
            LedgerRow(was.balance - amount, was.earned, SatAdd(was.spent, amount))])
    {
      if fault { return false; }
      var row := if a in db.ledger then db.ledger[a] else LedgerRow(0, 0, 0);
      assert row == LedgerOf(db, a);
      if row.balance < amount { return false; }
      DebitSound(db, a, amount);
      row := row.(balance := row.balance - amount);
      row := row.(spent := SatAdd(row.spent, amount));
      db := db.(ledger := db.ledger[a := row]);
      return true;
    }

    method BumpIssuedCounter(e: Epoch, n: nat, fault: bool) returns (ok: bool)
      requires Valid()
      modifies this
      ensures Valid() && ok == !fault
      ensures db == if ok then BumpIssued(old(db), e, n) else old(db)
      ensures var was := CounterOf(old(db), e);
        ok ==>
          db == old(db).(counters := old(db).counters[e :=
            CounterRow(SatAdd(was.issued, n), was.redeemed, was.trialGranted)])
    {
      if fault { return false; }
      var c := if e in db.counters then db.counters[e] else CounterRow(0, 0, 0);
      c := c.(issued := SatAdd(c.issued, n));
      BumpSound(db, e, n);
      db := db.(counters := db.counters[e := c]);
      return true;
    }

    /** The operator's check: in a sound store it never reports a violation. */
    method InvariantHoldsFor(e: Epoch) returns (holds: bool)
      requires Valid()
      ensures holds
    {
      assert CounterOf(db, e).redeemed <= CounterOf(db, e).issued;
      var c := if e in db.counters then db.counters[e] else CounterRow(0, 0, 0);
      return c.redeemed <= c.issued;
    }

    /**
     * The redeem transaction of `/v1/exec`: burn, bind, count.  A tripped counter drops the copy,
     * so a refused token is not burned.
     */
    method Spend(sid: SpendId, host: HostAccount, e: Epoch, fault: bool) returns (outcome: SpendOutcome)
      requires Valid()
      modifies this
      ensures Valid()
      ensures outcome == if fault then Refused else SpendOutcomeOf(old(db), sid, e)
      ensures db == if fault then old(db) else SpendTxn(old(db), sid, host, e)
      ensures outcome.Spent? <==> sid in db.spent && sid !in old(db).spent
      ensures !outcome.Spent? ==> db == old(db)
      // in plain terms: which outcome, and the three tables it writes
      ensures outcome.AlreadySpent? <==> !fault && sid in old(db).spent
      ensures outcome.Refused? <==>
                fault || (sid !in old(db).spent
                          && SatAdd(CounterOf(old(db), e).redeemed, 1) > CounterOf(old(db), e).issued)
      ensures var was := CounterOf(old(db), e);
        outcome.Spent? ==>
          db == old(db).(spent := old(db).spent[sid := e], spendHost := old(db).spendHost[sid := host],
                         counters := old(db).counters[e :=
                           CounterRow(was.issued, SatAdd(was.redeemed, 1), was.trialGranted)])
    {
      if fault { return Refused; }
      var w := db;
      if sid in w.spent { return AlreadySpent; }
      w := w.(spent := w.spent[sid := e]);
      w := w.(spendHost := w.spendHost[sid := host]);
      var c := if e in w.counters then w.counters[e] else CounterRow(0, 0, 0);
      c := c.(redeemed := SatAdd(c.redeemed, 1));
      w := w.(counters := w.counters[e := c]);
      if c.redeemed > c.issued { return Refused; }
      SpendKeeps(db, sid, host, e);
      assert w == SpendTxn(db, sid, host, e);
      db := w;
      return Spent;
    }

    /** The issuer's legacy redeem; fails closed to `AlreadySpent`. */
    method SpentInsert(sid: SpendId, e: Epoch, fault: bool) returns (inserted: bool)
      requires Valid()
      modifies this
      ensures Valid()
      ensures inserted <==> !fault && sid !in old(db).spent
      ensures db == if inserted then LegacyRedeemTxn(old(db), sid, e) else old(db)
      ensures inserted ==> db == old(db).(spent := old(db).spent[sid := e])
    {
      if fault || sid in db.spent { return false; }
      LegacyKeeps(db, sid, e);
      db := db.(spent := db.spent[sid := e]);
      return true;
    }

    method Ingest(cfg: Config, submit: ReceiptSubmit, fault: bool) returns (outcome: Option<IngestOutcome>)
      requires Valid()
      modifies this
      ensures Valid()
      ensures outcome == (if !submit.wellFormed then Some(BadRequest) else if !submit.signed then Some(BadSignature)
                          else if submit.row.units > cfg.unitsAuditCap then Some(OverCap)
                          else if fault then None else Some(IngestOutcomeOf(old(db), submit.sid, submit.row.host)))
      ensures db == if outcome == Some(Credited) then IngestTxn(cfg, old(db), submit.sid, submit.row) else old(db)
      ensures outcome == Some(Credited) ==> IngestOutcomeOf(db, submit.sid, submit.row.host) == AlreadyCredited
      // in plain terms: which outcome
      ensures var sid, host := submit.sid, submit.row.host;
        outcome.Some? && outcome.value != BadRequest && outcome.value != BadSignature && outcome.value != OverCap ==>
          && (outcome.value.UnknownHost? <==> host !in old(db).hosts)
          && (outcome.value.NoBurnedSpend? <==> host in old(db).hosts && sid !in old(db).spent)
          && (outcome.value.WrongHost? <==>
                && host in old(db).hosts && sid in old(db).spent
                && !(sid in old(db).spendHost && old(db).spendHost[sid] == host))
          && (outcome.value.AlreadyCredited? <==>
                && host in old(db).hosts && sid in old(db).spent
                && sid in old(db).spendHost && old(db).spendHost[sid] == host && sid in old(db).receipts)
      // and whose account is paid: the host's, by exactly one, and nobody else's
      ensures var a := cfg.fingerprint(submit.row.host);
        var was := LedgerOf(old(db), a);
        outcome == Some(Credited) ==>
          db == old(db).(receipts := old(db).receipts[submit.sid := submit.row],
                         ledger := old(db).ledger[a :=
                           LedgerRow(SatAdd(was.balance, 1), SatAdd(was.earned, 1), was.spent)])
    {
      if !submit.wellFormed { return Some(BadRequest); }
      if !submit.signed { return Some(BadSignature); }
      if submit.row.units > cfg.unitsAuditCap { return Some(OverCap); }
      if fault { return None; }
      var w, sid, host := db, submit.sid, submit.row.host;
      if host !in w.hosts { return Some(UnknownHost); }
      if sid !in w.spent { return Some(NoBurnedSpend); }
      if sid !in w.spendHost || w.spendHost[sid] != host { return Some(WrongHost); }
      if sid in w.receipts { return Some(AlreadyCredited); }
      w := w.(receipts := w.receipts[sid := submit.row]);
      var a := cfg.fingerprint(host);
      var row := if a in w.ledger then w.ledger[a] else LedgerRow(0, 0, 0);
      row := row.(balance := SatAdd(row.balance, 1));
      row := row.(earned := SatAdd(row.earned, 1));
      w := w.(ledger := w.ledger[a := row]);
      IngestSound(cfg, db, sid, submit.row);
      assert w == IngestTxn(cfg, db, sid, submit.row);
      assert sid in w.receipts;
      db := w;
      return Some(Credited);
    }

    method GrantTrial(cfg: Config, acct: HostAccount, day: Day, e: Epoch,
                      wellFormed: bool, powOk: bool, fault: bool) returns (outcome: Option<TrialOutcome>)
      requires Valid()
      modifies this
      ensures Valid()
      ensures outcome == (if !wellFormed then Some(BadTrialRequest) else if !powOk then Some(BadPow)
                          else if fault then None else Some(TrialOutcomeOf(cfg, old(db), acct, day)))
      ensures db == if outcome == Some(Granted) then TrialTxn(cfg, old(db), acct, day, e) else old(db)
      // in plain terms: which outcome
      ensures wellFormed && powOk && !fault ==>
        && (outcome == Some(AlreadyGranted) <==> acct in old(db).trialAccts)
        && (outcome == Some(BudgetExhausted) <==>
              && acct !in old(db).trialAccts
              && SatAdd(Get(old(db).trialBudget, day), cfg.trialGrant) > cfg.dailyTrialBudget)
        && (outcome == Some(Granted) <==>
              && acct !in old(db).trialAccts
              && SatAdd(Get(old(db).trialBudget, day), cfg.trialGrant) <= cfg.dailyTrialBudget)
      // and the four tables it writes: the record, the day, the account's own row and the epoch's count
      ensures var a := cfg.fingerprint(acct);
        var row, c := LedgerOf(old(db), a), CounterOf(old(db), e);
        outcome == Some(Granted) ==>
          db == old(db).(
            trialAccts := old(db).trialAccts[acct := day],
            trialBudget := old(db).trialBudget[day := SatAdd(Get(old(db).trialBudget, day), cfg.trialGrant)],
            ledger := old(db).ledger[a :=
              LedgerRow(SatAdd(row.balance, cfg.trialGrant), SatAdd(row.earned, cfg.trialGrant), row.spent)],
            counters := old(db).counters[e :=
              CounterRow(c.issued, c.redeemed, SatAdd(c.trialGranted, cfg.trialGrant))])
    {
      if !wellFormed { return Some(BadTrialRequest); }
      if !powOk { return Some(BadPow); }
      if fault { return None; }
      var w := db;
      if acct in w.trialAccts { return Some(AlreadyGranted); }
      var grantedToday := if day in w.trialBudget then w.trialBudget[day] else 0;
      if SatAdd(grantedToday, cfg.trialGrant) > cfg.dailyTrialBudget { return Some(BudgetExhausted); }
      w := w.(trialAccts := w.trialAccts[acct := day]);
      w := w.(trialBudget := w.trialBudget[day := SatAdd(grantedToday, cfg.trialGrant)]);
      var a := cfg.fingerprint(acct);
      var row := if a in w.ledger then w.ledger[a] else LedgerRow(0, 0, 0);
      row := row.(balance := SatAdd(row.balance, cfg.trialGrant));
      row := row.(earned := SatAdd(row.earned, cfg.trialGrant));
      w := w.(ledger := w.ledger[a := row]);
      var c := if e in w.counters then w.counters[e] else CounterRow(0, 0, 0);
      c := c.(trialGranted := SatAdd(c.trialGranted, cfg.trialGrant));
      w := w.(counters := w.counters[e := c]);
      TrialSound(cfg, db, acct, day, e);
      assert w == TrialTxn(cfg, db, acct, day, e);
      db := w;
      return Some(Granted);
    }

    /** What other requests do to the store in the meantime. */
    method Meanwhile(cfg: Config, xs: seq<Txn>)
      requires Valid()
      modifies this
      ensures Valid() && db == ApplyAll(cfg, old(db), xs)
    {
      ApplyAllSound(cfg, db, xs);
      db := ApplyAll(cfg, db, xs);
    }
  }
}
