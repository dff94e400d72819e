/**
 * The life of a spend in the durable store: burned, bound to one host, credited at most once,
 * and counted.  All of it survives restarts, epoch changes and legacy redeems.
 */
module SpendChain {
  import opened Prelude
  import opened Tables
  import opened Economy

  /** Host-bound spends with the epoch each was burned in. */
  ghost function BoundEpochs(t: Tables): map<SpendId, Epoch> {
    map s | s in t.spendHost && s in t.spent :: t.spent[s]
  }

  /** The number of spends of epoch `e` that were forwarded to a host. */
  ghost function BoundCount(t: Tables, e: Epoch): nat { |Fiber(BoundEpochs(t), e)| }

  ghost predicate ChainInv(t: Tables) {
    && t.receipts.Keys <= t.spendHost.Keys <= t.spent.Keys
    && (forall s :: s in t.receipts ==> s in t.spendHost && t.receipts[s].host == t.spendHost[s])
  }

  /** `redeemed` counts the bound spends, up to saturation, and never passes `issued`. */
  ghost predicate CountInv(t: Tables) {
    forall e :: CounterOf(t, e).redeemed == Min(BoundCount(t, e), U64_MAX)
             && CounterOf(t, e).redeemed <= CounterOf(t, e).issued <= U64_MAX
  }

  ghost predicate SpendInv(t: Tables) { ChainInv(t) && CountInv(t) }

  lemma SameCounts(t: Tables, t': Tables)
    requires SpendInv(t)
    requires t'.spent == t.spent && t'.spendHost == t.spendHost && t'.receipts == t.receipts
    requires forall e :: CounterOf(t', e).redeemed == CounterOf(t, e).redeemed
                      && CounterOf(t, e).issued <= CounterOf(t', e).issued <= U64_MAX
    ensures SpendInv(t')
  {
    assert BoundEpochs(t') == BoundEpochs(t);
    forall e ensures BoundCount(t', e) == BoundCount(t, e) {}
  }

  lemma SpendBinds(t: Tables, s: SpendId, h: HostAccount, e: Epoch, t': Tables)
    requires ChainInv(t) && s !in t.spent
    requires t'.spent == t.spent[s := e] && t'.spendHost == t.spendHost[s := h]
    ensures forall d :: BoundCount(t', d) == BoundCount(t, d) + (if d == e then 1 else 0)
  {
    assert BoundEpochs(t') == BoundEpochs(t)[s := e];
    FiberInsert(BoundEpochs(t), s, e);
  }

  lemma SpendKeeps(t: Tables, s: SpendId, h: HostAccount, e: Epoch)
    requires SpendInv(t)
    ensures SpendInv(SpendTxn(t, s, h, e))
  {
    if SpendOutcomeOf(t, s, e).Spent? {
      var t' := SpendTxn(t, s, h, e);
      SpendBinds(t, s, h, e, t');
      assert InvariantHolds(NoteRedeem(t, e), e);
      forall d ensures CounterOf(t', d).issued == CounterOf(t, d).issued
                    && CounterOf(t', d).redeemed == SatAdd(CounterOf(t, d).redeemed, if d == e then 1 else 0)
      {}
    }
  }

  lemma LegacyKeeps(t: Tables, s: SpendId, e: Epoch)
    requires SpendInv(t)
    ensures SpendInv(LegacyRedeemTxn(t, s, e))
  {
    var t' := LegacyRedeemTxn(t, s, e);
    assert BoundEpochs(t') == BoundEpochs(t);
    forall d ensures BoundCount(t', d) == BoundCount(t, d) && CounterOf(t', d) == CounterOf(t, d) {}
  }

  lemma IngestKeeps(cfg: Config, t: Tables, s: SpendId, row: ReceiptRow)
    requires SpendInv(t)
    ensures SpendInv(IngestTxn(cfg, t, s, row))
  {
    var t' := IngestTxn(cfg, t, s, row);
    assert BoundEpochs(t') == BoundEpochs(t);
    forall d ensures BoundCount(t', d) == BoundCount(t, d) && CounterOf(t', d) == CounterOf(t, d) {}
  }

  /** A table change that leaves spends alone and at most raises `issued`. */
  ghost predicate OnlyIssues(t: Tables, t': Tables) {
    && t'.spent == t.spent && t'.spendHost == t.spendHost && t'.receipts == t.receipts
    && (forall e :: CounterOf(t', e).redeemed == CounterOf(t, e).redeemed)
    && (forall e :: CounterOf(t, e).issued <= U64_MAX ==>
          CounterOf(t, e).issued <= CounterOf(t', e).issued <= U64_MAX)
  }

  lemma BumpOnlyIssues(t: Tables, e: Epoch, n: nat)
    ensures OnlyIssues(t, BumpIssued(t, e, n))
  {}

  lemma TrialOnlyIssues(cfg: Config, t: Tables, acct: HostAccount, day: Day, e: Epoch)
    ensures OnlyIssues(t, TrialTxn(cfg, t, acct, day, e))
  {}

  lemma OtherStepsFrame(cfg: Config, m: TokenModel, s: State, ev: Event)
    requires !ev.Redeem? && !ev.LegacyRedeem? && !ev.Receipt?
    ensures OnlyIssues(s.db, Step(cfg, m, s, ev).db)
  {
    if Enabled(m, s, ev) {
      if ev.Observe? {
        BumpOnlyIssues(s.db, s.epoch, s.tasks[ev.id].amount);
      } else if ev.Trial? {
        TrialOnlyIssues(cfg, s.db, ev.acct, ev.day, s.epoch);
      } else if Quiet(ev) {
        QuietFrame(cfg, m, s, ev);
      } else {
        LedgerOnly(cfg, m, s, ev);
      }
    }
  }

  lemma LedgerOnly(cfg: Config, m: TokenModel, s: State, ev: Event)
    requires ev.Debit? || ev.Refund? || ev.AdminGrant? || ev.HostUpdate?
    ensures var t := Step(cfg, m, s, ev).db;
      && t.spent == s.db.spent && t.spendHost == s.db.spendHost && t.receipts == s.db.receipts
      && t.counters == s.db.counters
  {
    if Enabled(m, s, ev) {
      match ev
      case Debit(id, fault) => DebitLedgerOnly(s, id, fault);
      case Refund(id, fault) => RefundLedgerOnly(s, id, fault);
      case AdminGrant(_, _, _) =>
      case HostUpdate(_, _) =>
    }
  }

  lemma DebitLedgerOnly(s: State, id: TaskId, fault: bool)
    requires id in s.tasks
    ensures var t := DebitStep(s, id, fault).db; t == s.db.(ledger := t.ledger)
  {}

  lemma RefundLedgerOnly(s: State, id: TaskId, fault: bool)
    requires id in s.tasks
    ensures var t := RefundStep(s, id, fault).db; t == s.db.(ledger := t.ledger)
  {}

  lemma SpendInvStep(cfg: Config, m: TokenModel, s: State, ev: Event)
    requires SpendInv(s.db)
    ensures SpendInv(Step(cfg, m, s, ev).db)
  {
    if Enabled(m, s, ev) {
      if ev.Redeem? {
        SpendKeeps(s.db, ev.sid, ev.host, s.epoch);
      } else if ev.LegacyRedeem? {
        LegacyKeeps(s.db, ev.sid, s.epoch);
      } else if ev.Receipt? {
        IngestKeeps(cfg, s.db, ev.sid, ev.row);
      } else {
        OtherStepsFrame(cfg, m, s, ev);
        SameCounts(s.db, Step(cfg, m, s, ev).db);
      }
    }
  }

  lemma {:induction false} SpendInvAlways(cfg: Config, m: TokenModel, c: Served, evs: seq<Event>)
    ensures SpendInv(Run(cfg, m, c, evs).db)
    decreases |evs|
  {
    if evs == [] {
      assert BoundEpochs(EMPTY) == map[];
      forall d ensures BoundCount(EMPTY, d) == 0 { assert Fiber(BoundEpochs(EMPTY), d) == {}; }
    } else {
      SpendInvAlways(cfg, m, c, evs[..|evs| - 1]);
      SpendInvStep(cfg, m, Run(cfg, m, c, evs[..|evs| - 1]), evs[|evs| - 1]);
    }
  }

  /** Below saturation the counter is exactly the number of forwarded spends of its epoch. */
  lemma RedeemedCountsBoundSpends(cfg: Config, m: TokenModel, c: Served, evs: seq<Event>, d: Epoch)
    ensures var t := Run(cfg, m, c, evs).db;
      && t.receipts.Keys <= t.spendHost.Keys <= t.spent.Keys
      && (forall s :: s in t.receipts ==> t.receipts[s].host == t.spendHost[s])
      && CounterOf(t, d).redeemed <= CounterOf(t, d).issued
      && (CounterOf(t, d).issued < U64_MAX ==> CounterOf(t, d).redeemed == BoundCount(t, d))
  {
    SpendInvAlways(cfg, m, c, evs);
  }

  /** What is written about a spend is never rewritten, by any step. */
  ghost predicate Persists(t: Tables, t': Tables) {
    && (forall s :: s in t.spent ==> s in t'.spent && t'.spent[s] == t.spent[s])
    && (forall s :: s in t.spendHost ==> s in t'.spendHost && t'.spendHost[s] == t.spendHost[s])
    && (forall s :: s in t.receipts ==> s in t'.receipts && t'.receipts[s] == t.receipts[s])
  }

  lemma SpendPersists(t: Tables, sid: SpendId, h: HostAccount, e: Epoch)
    requires ChainInv(t)
    ensures Persists(t, SpendTxn(t, sid, h, e)) && ChainInv(SpendTxn(t, sid, h, e))
  {}

  lemma LegacyPersists(t: Tables, sid: SpendId, e: Epoch)
    requires ChainInv(t)
    ensures Persists(t, LegacyRedeemTxn(t, sid, e)) && ChainInv(LegacyRedeemTxn(t, sid, e))
  {}

  lemma IngestPersists(cfg: Config, t: Tables, sid: SpendId, row: ReceiptRow)
    requires ChainInv(t)
    ensures Persists(t, IngestTxn(cfg, t, sid, row)) && ChainInv(IngestTxn(cfg, t, sid, row))
  {}

  lemma StepPersists(cfg: Config, m: TokenModel, s: State, ev: Event)
    requires ChainInv(s.db)
    ensures Persists(s.db, Step(cfg, m, s, ev).db)
  {
    if Enabled(m, s, ev) {
      if ev.Redeem? {
        SpendPersists(s.db, ev.sid, ev.host, s.epoch);
      } else if ev.LegacyRedeem? {
        LegacyPersists(s.db, ev.sid, s.epoch);
      } else if ev.Receipt? {
        IngestPersists(cfg, s.db, ev.sid, ev.row);
      } else {
        OtherStepsFrame(cfg, m, s, ev);
      }
    }
  }

  /** Bindings and receipts of an earlier state of a run stand in every later one. */
  lemma {:induction false} BindingNeverChanges(cfg: Config, m: TokenModel, c: Served, evs: seq<Event>, n: nat)
    requires n <= |evs|
    ensures Persists(Run(cfg, m, c, evs[..n]).db, Run(cfg, m, c, evs).db)
    decreases |evs|
  {
    if n == |evs| {
      assert evs[..n] == evs;
    } else {
      var pre := evs[..|evs| - 1];
      assert pre[..n] == evs[..n];
      BindingNeverChanges(cfg, m, c, pre, n);
      SpendInvAlways(cfg, m, c, pre);
      StepPersists(cfg, m, Run(cfg, m, c, pre), evs[|evs| - 1]);
    }
  }

  /** Does the step from `s` by `ev` credit the host of spend `sid`? */
  ghost predicate Credits(s: State, ev: Event, sid: SpendId) {
    ev.Receipt? && ev.sid == sid && !ev.fault && IngestOutcomeOf(s.db, sid, ev.row.host).Credited?
  }

  /** Over a whole run, restarts included, a spend is credited at most once. */
  lemma CreditedAtMostOnce(cfg: Config, m: TokenModel, c: Served, evs: seq<Event>, i: nat, j: nat, sid: SpendId)
    requires i < |evs| && j < |evs|
    requires Credits(Run(cfg, m, c, evs[..i]), evs[i], sid)
    requires Credits(Run(cfg, m, c, evs[..j]), evs[j], sid)
    ensures i == j
  {
    if i < j {
      CreditedOnceOrdered(cfg, m, c, evs, i, j, sid);
    } else if j < i {
      CreditedOnceOrdered(cfg, m, c, evs, j, i, sid);
    }
  }

  lemma CreditedOnceOrdered(cfg: Config, m: TokenModel, c: Served, evs: seq<Event>, i: nat, j: nat, sid: SpendId)
    requires i < j < |evs|
    requires Credits(Run(cfg, m, c, evs[..i]), evs[i], sid)
    ensures !Credits(Run(cfg, m, c, evs[..j]), evs[j], sid)
  {
    var after := evs[..i + 1];
    assert after[..|after| - 1] == evs[..i] && after[|after| - 1] == evs[i];
    assert sid in Run(cfg, m, c, after).db.receipts;
    assert evs[..j][..i + 1] == after;
    BindingNeverChanges(cfg, m, c, evs[..j], i + 1);
  }
}
